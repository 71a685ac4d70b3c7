/** The process-wide plugin table (`PluginTable`): functors stored under the
    key `name + "__" + typeName`, a lookup that loads the library
    "lib<name>_<suffix>.so" once on a miss and looks again, and the typed
    `registerPlugin<T>` / `getPlugin<T>` templates that tag entries with
    `typeid(T).name()`.

    The functor type `F` stands for `boost::any`: the table holds functors of
    every capability at once, and the stored type tag is what tells them apart.
    A library load is an oracle returning the registrations the library's
    static initializers perform, or a load error. */
module PluginTable {
  import opened Wrappers
  import opened Loader

  /** The table key: name and type name joined by a double underscore. */
  function Key(name: string, typeName: string): string {
    name + "__" + typeName
  }

  datatype Plugin<F> = Plugin(typeName: string, functor: F)

  type Table<F> = map<string, Plugin<F>>

  datatype Error =
    | EmptyName       // "'name' parameter cannot be empty"
    | EmptyTypeName   // "'typeName' parameter cannot be empty"
    | EmptyPath       // "'path' parameter cannot be empty"
    | LoadFailed(path: string)   // "couldn't load library from <path>"
    | PluginNotFound  // "couldn't get requested plugin"
    | Terminated      // a `write` threw inside a library's static initializer during `dlopen`;
                      // the exception cannot be caught there, so `std::terminate` ends the
                      // process and no caller resumes

  /** One `registerPlugin` call made by a library while it is being loaded. */
  datatype Registration<F> = Registration(name: string, typeName: string, functor: F)

  /** What `dlopen` does with a path: either the library loads and its static
      initializers register functors, or the load fails. */
  datatype LoadOutcome<F> = Loaded(registrations: seq<Registration<F>>) | LoadError

  /** `PluginTable::write`. The second guard tests `name` again, so an empty
      type name is accepted; `insert` keeps the existing entry on a duplicate key. */
  function Write<F>(t: Table<F>, name: string, typeName: string, functor: F): (r: Result<Table<F>, Error>)
    ensures r.Err? <==> name == ""
    ensures r.Err? ==> r.error == EmptyName
    ensures r.Ok? && Key(name, typeName) in t ==> r.value == t
    ensures r.Ok? && Key(name, typeName) !in t ==>
              r.value.Keys == t.Keys + {Key(name, typeName)}
              && r.value[Key(name, typeName)] == Plugin(typeName, functor)
              && forall k :: k in t ==> r.value[k] == t[k]
  {
    if name == "" then Err(EmptyName)
    else if name == "" then Err(EmptyTypeName)
    else
      var key := Key(name, typeName);
      if key in t then Ok(t) else Ok(t[key := Plugin(typeName, functor)])
  }

  /** The table a load leaves behind, and whether the load ended the process. */
  datatype Installed<F> = Installed(table: Table<F>, error: Option<Error>)

  /** The effect of a successful load: the library's static initializers
      write each registration in turn. A registration with an empty name
      throws out of the initializer, which terminates the process: the writes
      before it are the table's last state and the rest never happen. */
  function Register<F>(t: Table<F>, regs: seq<Registration<F>>): (r: Installed<F>)
    ensures t.Keys <= r.table.Keys
    ensures forall k :: k in t ==> r.table[k] == t[k]
    ensures r.error.None? <==> forall i :: 0 <= i < |regs| ==> regs[i].name != ""
    ensures r.error.Some? ==> r.error.value == Terminated
    ensures |regs| > 0 && regs[0].name == "" ==> r == Installed(t, Some(Terminated))
    decreases |regs|
  {
    if |regs| == 0 then Installed(t, None)
    else
      match Write(t, regs[0].name, regs[0].typeName, regs[0].functor)
      case Ok(t') =>
        var r := Register(t', regs[1..]);
        assert forall i :: 1 <= i < |regs| ==> regs[i] == regs[1..][i - 1];
        r
      case Err(_) => Installed(t, Some(Terminated))
  }

  /** The registrations up to the first empty name take effect; that one
      terminates the process, and the ones after it are never made. */
  lemma {:induction false} RegisterStopsAtEmptyName<F>(t: Table<F>, before: seq<Registration<F>>,
                                                        bad: Registration<F>, after: seq<Registration<F>>)
    requires forall i :: 0 <= i < |before| ==> before[i].name != ""
    requires bad.name == ""
    ensures Register(t, before + [bad] + after) == Installed(Register(t, before).table, Some(Terminated))
    decreases |before|
  {
    var regs := before + [bad] + after;
    if |before| == 0 {
      assert regs[0] == bad;
    } else {
      assert regs[0] == before[0];
      var t' := Write(t, before[0].name, before[0].typeName, before[0].functor).value;
      assert regs[1..] == before[1..] + [bad] + after;
      RegisterStopsAtEmptyName(t', before[1..], bad, after);
    }
  }

  /** `PluginTable::loadLib`: the load error, or the termination a library's
      initializer caused, with the table as the load left it. */
  function LoadLib<F>(t: Table<F>, path: string, load: string -> LoadOutcome<F>): (r: Installed<F>)
    ensures path == "" ==> r == Installed(t, Some(EmptyPath))
    ensures path != "" && load(path).LoadError? ==> r == Installed(t, Some(LoadFailed(path)))
    ensures path != "" && load(path).Loaded? ==> r == Register(t, load(path).registrations)
  {
    if path == "" then Installed(t, Some(EmptyPath))
    else match load(path)
      case LoadError => Installed(t, Some(LoadFailed(path)))
      case Loaded(regs) => Register(t, regs)
  }

  /** One look into the table: the entry under the key, if its stored type name
      is the requested one. */
  function Find<F>(t: Table<F>, name: string, typeName: string): Option<F> {
    var key := Key(name, typeName);
    if key in t && t[key].typeName == typeName then Some(t[key].functor) else None
  }

  /** The table after a `read`, the library paths it tried to load, and the
      functor or the exception. */
  datatype ReadOutcome<F> = ReadOutcome(table: Table<F>, loads: seq<string>, result: Result<F, Error>)

  /** `PluginTable::read`: look up; on a miss load "lib<name>_<libSufix>.so"
      exactly once and look up again. */
  function Read<F>(t: Table<F>, name: string, typeName: string, libSufix: string,
                   load: string -> LoadOutcome<F>): (r: ReadOutcome<F>)
    ensures name == "" ==> r == ReadOutcome(t, [], Err(EmptyName))
    ensures name != "" && Find(t, name, typeName).Some? ==>
              r == ReadOutcome(t, [], Ok(Find(t, name, typeName).value))
    ensures name != "" && Find(t, name, typeName).None? ==>
              r.loads == [LibPath(name, libSufix)]
    ensures name != "" && Find(t, name, typeName).None? && load(LibPath(name, libSufix)).LoadError? ==>
              r == ReadOutcome(t, [LibPath(name, libSufix)], Err(LoadFailed(LibPath(name, libSufix))))
    ensures name != "" && Find(t, name, typeName).None? && load(LibPath(name, libSufix)).Loaded? ==>
              r.table == Register(t, load(LibPath(name, libSufix)).registrations).table
    ensures name != "" && Find(t, name, typeName).None? && load(LibPath(name, libSufix)).Loaded?
            && Register(t, load(LibPath(name, libSufix)).registrations).error.Some? ==>
              r.result == Err(Terminated)
    ensures name != "" && Find(t, name, typeName).None? && load(LibPath(name, libSufix)).Loaded?
            && Register(t, load(LibPath(name, libSufix)).registrations).error.None? ==>
              (r.result.Err? <==> Find(r.table, name, typeName).None?)
              && (r.result.Err? ==> r.result.error == PluginNotFound)
    ensures r.result.Ok? ==> Find(r.table, name, typeName) == Some(r.result.value)
    ensures t.Keys <= r.table.Keys && forall k :: k in t ==> r.table[k] == t[k]
  {
    if name == "" then ReadOutcome(t, [], Err(EmptyName))
    else if name == "" then ReadOutcome(t, [], Err(EmptyTypeName))
    else match Find(t, name, typeName)
      case Some(f) => ReadOutcome(t, [], Ok(f))
      case None =>
        var path := LibPath(name, libSufix);
        match LoadLib(t, path, load)
        case Installed(t', Some(e)) => ReadOutcome(t', [path], Err(e))
        case Installed(t', None) =>
          match Find(t', name, typeName)
          case Some(f) => ReadOutcome(t', [path], Ok(f))
          case None => ReadOutcome(t', [path], Err(PluginNotFound))
  }

  /** A functor written under a fresh key is what a later `read` with the same
      name and type name returns, without loading anything. */
  lemma ReadAfterWrite<F>(t: Table<F>, name: string, typeName: string, functor: F,
                          libSufix: string, load: string -> LoadOutcome<F>)
    requires name != "" && Key(name, typeName) !in t
    ensures Write(t, name, typeName, functor).Ok?
    ensures var t' := Write(t, name, typeName, functor).value;
            Read(t', name, typeName, libSufix, load) == ReadOutcome(t', [], Ok(functor))
  {
  }

  /** A library whose initializers register an empty name before the
      requested plugin terminates the process during the read's load; the
      plugin it would have registered never reaches the table. */
  lemma EmptyRegistrationTerminates<F>(t: Table<F>, name: string, typeName: string, bad: F, functor: F,
                                      libSufix: string, load: string -> LoadOutcome<F>)
    requires name != "" && Key(name, typeName) !in t
    requires load(LibPath(name, libSufix)) == Loaded([Registration("", typeName, bad), Registration(name, typeName, functor)])
    ensures Read(t, name, typeName, libSufix, load) == ReadOutcome(t, [LibPath(name, libSufix)], Err(Terminated))
  {
  }

  /** Writing under a key that is taken keeps the first functor, raises
      nothing, and `read` keeps returning the first one. */
  lemma WriteKeepsFirst<F>(t: Table<F>, name: string, typeName: string, first: F, second: F,
                           libSufix: string, load: string -> LoadOutcome<F>)
    requires name != "" && Key(name, typeName) !in t
    ensures var t1 := Write(t, name, typeName, first).value;
            Write(t1, name, typeName, second) == Ok(t1)
            && Read(t1, name, typeName, libSufix, load).result == Ok(first)
  {
  }

  /** Both guards test the name: an empty type name is stored like any other. */
  lemma EmptyTypeNameAccepted<F>(t: Table<F>, name: string, functor: F,
                                 libSufix: string, load: string -> LoadOutcome<F>)
    requires name != "" && Key(name, "") !in t
    ensures Write(t, name, "", functor).Ok?
    ensures Read(Write(t, name, "", functor).value, name, "", libSufix, load).result == Ok(functor)
  {
  }

  /** Every stored entry's key is some name joined with the entry's own type name. */
  ghost predicate KeysConsistent<F>(t: Table<F>) {
    forall k :: k in t ==>
      |k| >= |t[k].typeName| + 2 && k == Key(k[..|k| - |t[k].typeName| - 2], t[k].typeName)
  }

  lemma WritePreservesKeysConsistent<F>(t: Table<F>, name: string, typeName: string, functor: F)
    requires KeysConsistent(t)
    requires Write(t, name, typeName, functor).Ok?
    ensures KeysConsistent(Write(t, name, typeName, functor).value)
  {
    var key := Key(name, typeName);
    if key !in t {
      assert key[..|key| - |typeName| - 2] == name;
    }
  }

  lemma {:induction false} RegisterPreservesKeysConsistent<F>(t: Table<F>, regs: seq<Registration<F>>)
    requires KeysConsistent(t)
    ensures KeysConsistent(Register(t, regs).table)
    decreases |regs|
  {
    if |regs| > 0 {
      var w := Write(t, regs[0].name, regs[0].typeName, regs[0].functor);
      if w.Ok? {
        WritePreservesKeysConsistent(t, regs[0].name, regs[0].typeName, regs[0].functor);
        RegisterPreservesKeysConsistent(w.value, regs[1..]);
      }
    }
  }

  /** `read` (including the load it may trigger) keeps the key invariant. */
  lemma ReadPreservesKeysConsistent<F>(t: Table<F>, name: string, typeName: string, libSufix: string,
                                       load: string -> LoadOutcome<F>)
    requires KeysConsistent(t)
    ensures KeysConsistent(Read(t, name, typeName, libSufix, load).table)
  {
    if name != "" && Find(t, name, typeName).None? {
      var path := LibPath(name, libSufix);
      if load(path).Loaded? {
        RegisterPreservesKeysConsistent(t, load(path).registrations);
      }
    }
  }

  /** The type check in `read` rejects a found entry only when two different
      (name, type name) pairs produce the same key. */
  lemma RejectedEntryMeansKeyCollision<F>(t: Table<F>, name: string, typeName: string)
    requires KeysConsistent(t)
    requires Key(name, typeName) in t && t[Key(name, typeName)].typeName != typeName
    ensures var key := Key(name, typeName);
            var storedType := t[key].typeName;
            var storedName := key[..|key| - |storedType| - 2];
            Key(storedName, storedType) == key && (storedName, storedType) != (name, typeName)
  {
  }

  /** Key collision in practice: a plugin registered as ("a", "b__c") after one
      registered as ("a__b", "c") is silently dropped, and reading it back fails
      whatever the load does. */
  lemma KeyCollisionHidesPlugin(first: int, second: int, libSufix: string, load: string -> LoadOutcome<int>)
    ensures var t1 := Write(map[], "a__b", "c", first).value;
            var t2 := Write(t1, "a", "b__c", second).value;
            t2 == t1 && Read(t2, "a", "b__c", libSufix, load).result.Err?
  {
    var t1 := Write(map[], "a__b", "c", first).value;
    assert Key("a__b", "c") == Key("a", "b__c");
    assert Find(t1, "a", "b__c").None?;
    var path := LibPath("a", libSufix);
    if load(path).Loaded? {
      var t3 := Register(t1, load(path).registrations).table;
      assert t3[Key("a", "b__c")] == t1[Key("a", "b__c")];
    }
  }

  /** Different type names under one name never share a key. */
  lemma KeysOfOneNameDiffer(name: string, typeA: string, typeB: string)
    requires typeA != typeB
    ensures Key(name, typeA) != Key(name, typeB)
  {
    assert Key(name, typeA)[|name| + 2..] == typeA;
    assert Key(name, typeB)[|name| + 2..] == typeB;
  }

  /** A C++ type, as `typeid(T).name()` names it. */
  datatype CppType = CppType(mangledName: string)

  /** `registerPlugin<T>`: store the functor under `name`, tagged with its type. */
  function RegisterPlugin<F>(t: Table<F>, name: string, functorType: CppType, functor: F): (r: Result<Table<F>, Error>)
    ensures r.Ok? <==> name != ""
    ensures r.Ok? && Key(name, functorType.mangledName) !in t ==>
              Key(name, functorType.mangledName) in r.value &&
              r.value[Key(name, functorType.mangledName)] == Plugin(functorType.mangledName, functor)
  {
    Write(t, name, functorType.mangledName, functor)
  }

  /** `getPlugin<T>`: read the entry stored under (name, tag of T). The
      `any_cast` cannot fail: an entry found under T's tag was stored by
      `registerPlugin<T>` and holds a T. */
  function GetPlugin<F>(t: Table<F>, name: string, functorType: CppType, libSufix: string,
                        load: string -> LoadOutcome<F>): (r: ReadOutcome<F>)
    ensures r.result.Ok? ==> Find(r.table, name, functorType.mangledName) == Some(r.result.value)
  {
    Read(t, name, functorType.mangledName, libSufix, load)
  }

  /** Registering then getting with the same type and name returns the
      registered functor with no load. */
  lemma RegisterThenGet<F>(t: Table<F>, name: string, functorType: CppType, functor: F,
                           libSufix: string, load: string -> LoadOutcome<F>)
    requires name != "" && Key(name, functorType.mangledName) !in t
    ensures var t' := RegisterPlugin(t, name, functorType, functor).value;
            GetPlugin(t', name, functorType, libSufix, load) == ReadOutcome(t', [], Ok(functor))
  {
    ReadAfterWrite(t, name, functorType.mangledName, functor, libSufix, load);
  }

  /** One name registered with two functor types yields two independent entries. */
  lemma TwoTypesTwoEntries<F>(t: Table<F>, name: string, typeA: CppType, typeB: CppType, fa: F, fb: F,
                              libSufix: string, load: string -> LoadOutcome<F>)
    requires name != "" && typeA != typeB
    requires Key(name, typeA.mangledName) !in t && Key(name, typeB.mangledName) !in t
    ensures var t1 := RegisterPlugin(t, name, typeA, fa).value;
            var t2 := RegisterPlugin(t1, name, typeB, fb).value;
            GetPlugin(t2, name, typeA, libSufix, load).result == Ok(fa)
            && GetPlugin(t2, name, typeB, libSufix, load).result == Ok(fb)
  {
    KeysOfOneNameDiffer(name, typeA.mangledName, typeB.mangledName);
    var t1 := RegisterPlugin(t, name, typeA, fa).value;
    var t2 := RegisterPlugin(t1, name, typeB, fb).value;
    assert t2[Key(name, typeA.mangledName)] == Plugin(typeA.mangledName, fa);
  }
}
