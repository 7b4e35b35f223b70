/** The module registry (`ModuleLoader`): loading, unloading and reloading of
    plugin modules declared by `ModuleConfig`, the `sys.modules` entries the
    loader writes, and the set of directories watched for hot reload.

    The import machinery is an oracle: `FileSystem` says, for a path, whether
    nothing is there, no module spec can be built, or code whose execution
    raises or succeeds and which offers some hooks.  Each module object the
    loader creates gets a fresh identity.  The `LoaderState` functions below
    give the meaning of each operation; the `ModuleLoader` class performs the
    same updates in place and is proved to agree with them. */
module Loader {
  import opened Data
  import Paths

  /** The outcome of calling an optional module hook. */
  datatype Hook = Absent | Returns | Raises(message: string)

  /** What the optional `get_tests()` hook does. */
  datatype TestsHook = NoGetTests | GetTestsRaises | GetTestsReturns(result: Value)

  datatype Hooks = Hooks(initialize: Hook, shutdown: Hook, getTests: TestsHook)

  /** What the import machinery finds at a path. */
  datatype Source =
    | Missing                                  // `Path(path).exists()` is false
    | NoSpec                                   // `spec_from_file_location` gives no spec or loader
    | Code(execRaises: bool, hooks: Hooks)     // `exec_module` raises, or defines these hooks

  type FileSystem = string -> Source

  /** `ModuleConfig`; `config` is the optional dictionary handed to `initialize`. */
  datatype ModuleConfig = ModuleConfig(name: string, path: string, enabled: bool, config: Option<Value>)

  /** A module object created by `module_from_spec`; `id` tells objects apart,
      `file` is its `__file__`. */
  datatype ModuleObject = ModuleObject(id: nat, file: Option<string>, hooks: Hooks)

  /** The watchdog observer: never created, started, or stopped. */
  datatype Observer = NoObserver | Running | Stopped

  /** The loader's fields.  `order` is the key order shared by `_modules` and
      `_module_configs` (both dictionaries are inserted into and deleted from
      together, so their iteration order is the same). */
  datatype LoaderState = LoaderState(
    modules: map<string, ModuleObject>,
    configs: map<string, ModuleConfig>,
    order: seq<string>,
    sysModules: map<string, ModuleObject>,
    observer: Observer,
    watched: set<string>,
    nextId: nat)

  ghost predicate Distinct(s: seq<string>) {
    forall i, j :: 0 <= i < j < |s| ==> s[i] != s[j]
  }

  /** The invariant every operation keeps: the two dictionaries have the same
      keys, in the order `order` lists without repetition; every stored
      config is enabled and stored under its own name; object identities are
      below `nextId`; paths are watched only once an observer exists. */
  ghost predicate Inv(s: LoaderState) {
    && s.modules.Keys == s.configs.Keys
    && Distinct(s.order)
    && (forall n :: n in s.order <==> n in s.modules)
    && (forall n :: n in s.configs ==> s.configs[n].name == n && s.configs[n].enabled)
    && (forall n :: n in s.modules ==> s.modules[n].id < s.nextId)
    && (forall n :: n in s.sysModules ==> s.sysModules[n].id < s.nextId)
    && (s.observer.NoObserver? ==> s.watched == {})
  }

  function EmptyLoader(): LoaderState {
    LoaderState(map[], map[], [], map[], NoObserver, {}, 0)
  }

  /** `s` without `x`. */
  function Remove(s: seq<string>, x: string): (r: seq<string>)
    ensures forall y :: y in r <==> y in s && y != x
    ensures Distinct(s) ==> Distinct(r)
  {
    if s == [] then []
    else if s[0] == x then Remove(s[1..], x)
    else
      var rest := Remove(s[1..], x);
      assert Distinct(s) ==> s[0] !in rest by {
        if Distinct(s) {
          assert forall k :: 0 <= k < |s[1..]| ==> s[1..][k] == s[k + 1] != s[0];
        }
      }
      [s[0]] + rest
  }

  // ---------------------------------------------------------------------
  // The operations on the loader's state.

  /** `_watch_path`: a directory already watched is ignored; the observer is
      created on the first watch only. */
  function Watch(s: LoaderState, path: string): LoaderState {
    if path in s.watched then s
    else s.(observer := if s.observer.NoObserver? then Running else s.observer,
            watched := s.watched + {path})
  }

  /** Whether `load_module` returns True for this config and file system. */
  predicate LoadSucceeds(config: ModuleConfig, fs: FileSystem) {
    config.enabled && fs(config.path).Code? && !fs(config.path).execRaises
  }

  /** `load_module`.  The new module object enters `sys.modules` before its
      code runs, so a raising `exec_module` still leaves it there. */
  function Load(s: LoaderState, watchReload: bool, config: ModuleConfig, fs: FileSystem): (LoaderState, bool) {
    if !config.enabled then (s, false)
    else match fs(config.path)
      case Missing => (s, false)
      case NoSpec => (s, false)
      case Code(execRaises, hooks) =>
        var obj := ModuleObject(s.nextId, Some(config.path), hooks);
        var s1 := s.(sysModules := s.sysModules[config.name := obj], nextId := s.nextId + 1);
        if execRaises then (s1, false)
        else
          var s2 := s1.(modules := s1.modules[config.name := obj],
                        configs := s1.configs[config.name := config],
                        order := if config.name in s1.modules then s1.order else s1.order + [config.name]);
          (if watchReload then Watch(s2, Paths.Parent(config.path)) else s2, true)
  }

  /** `unload_module`.  A raising `shutdown` hook makes it return False with
      the module still registered. */
  function Unload(s: LoaderState, name: string): (LoaderState, bool) {
    if name !in s.modules then (s, false)
    else if s.modules[name].hooks.shutdown.Raises? then (s, false)
    else (s.(sysModules := s.sysModules - {name},
             modules := s.modules - {name},
             configs := s.configs - {name},
             order := Remove(s.order, name)), true)
  }

  /** `reload_module`: unload, then load the stored config again; the result
      of the unload is ignored and nothing is rolled back. */
  function Reload(s: LoaderState, watchReload: bool, name: string, fs: FileSystem): (LoaderState, bool) {
    if name !in s.configs then (s, false)
    else Load(Unload(s, name).0, watchReload, s.configs[name], fs)
  }

  /** The first name, in dictionary order, whose config has path `path`. */
  function FirstWithPath(names: seq<string>, configs: map<string, ModuleConfig>, path: string): (r: Option<string>)
    ensures r.Some? ==> r.value in names && r.value in configs && configs[r.value].path == path
    ensures r.None? ==> forall n :: n in names && n in configs ==> configs[n].path != path
  {
    if names == [] then None
    else if names[0] in configs && configs[names[0]].path == path then Some(names[0])
    else FirstWithPath(names[1..], configs, path)
  }

  /** `reload_module_by_path`: reload the first module whose config path is
      `path`, if there is one. */
  function ReloadByPath(s: LoaderState, watchReload: bool, path: string, fs: FileSystem): LoaderState {
    match FirstWithPath(s.order, s.configs, path)
    case None => s
    case Some(name) => Reload(s, watchReload, name, fs).0
  }

  /** `load_modules` from the `i`-th config on, with the results collected so
      far in `results` (a later config with the same name overwrites). */
  function LoadMany(s: LoaderState, watchReload: bool, configs: seq<ModuleConfig>, fs: FileSystem,
                    results: map<string, bool>): (LoaderState, map<string, bool>)
    decreases |configs|
  {
    if configs == [] then (s, results)
    else
      var (s1, ok) := Load(s, watchReload, configs[0], fs);
      LoadMany(s1, watchReload, configs[1..], fs, results[configs[0].name := ok])
  }

  /** Unloading `names` one after another. */
  function UnloadAll(s: LoaderState, names: seq<string>): LoaderState
    decreases |names|
  {
    if names == [] then s else UnloadAll(Unload(s, names[0]).0, names[1..])
  }

  function StopObserver(s: LoaderState): LoaderState {
    if s.observer.NoObserver? then s else s.(observer := Stopped)
  }

  /** `shutdown`: stop the observer (it is not discarded), then unload every
      module, in order, from a snapshot of the names. */
  function ShutdownState(s: LoaderState): LoaderState {
    UnloadAll(StopObserver(s), s.order)
  }

  // ---------------------------------------------------------------------
  // What the source promises about these operations.

  lemma WatchKeepsInv(s: LoaderState, path: string)
    requires Inv(s)
    ensures Inv(Watch(s, path))
  {
  }

  /** Watching is idempotent, the observer is created at most once, and the
      watched set only grows by the given directory. */
  lemma WatchIdempotent(s: LoaderState, path: string)
    requires Inv(s)
    ensures Watch(Watch(s, path), path) == Watch(s, path)
    ensures Watch(s, path).watched == s.watched + {path}
    ensures !s.observer.NoObserver? ==> Watch(s, path).observer == s.observer
    ensures !Watch(s, path).observer.NoObserver?
  {
  }

  lemma LoadKeepsInv(s: LoaderState, watchReload: bool, config: ModuleConfig, fs: FileSystem)
    requires Inv(s)
    ensures Inv(Load(s, watchReload, config, fs).0)
  {
    if LoadSucceeds(config, fs) {
      var obj := ModuleObject(s.nextId, Some(config.path), fs(config.path).hooks);
      var s1 := s.(sysModules := s.sysModules[config.name := obj], nextId := s.nextId + 1);
      var s2 := s1.(modules := s1.modules[config.name := obj],
                    configs := s1.configs[config.name := config],
                    order := if config.name in s1.modules then s1.order else s1.order + [config.name]);
      assert Distinct(s2.order) by {
        if config.name !in s.modules {
          assert config.name !in s.order;
        }
      }
      assert Inv(s2);
      assert Load(s, watchReload, config, fs).0 == if watchReload then Watch(s2, Paths.Parent(config.path)) else s2;
      WatchKeepsInv(s2, Paths.Parent(config.path));
    } else if config.enabled && fs(config.path).Code? {
      var obj := ModuleObject(s.nextId, Some(config.path), fs(config.path).hooks);
      assert Load(s, watchReload, config, fs).0 == s.(sysModules := s.sysModules[config.name := obj], nextId := s.nextId + 1);
    }
  }

  /** A disabled config, a missing path or a missing spec: `load_module`
      returns False and nothing changes. */
  lemma LoadRefused(s: LoaderState, watchReload: bool, config: ModuleConfig, fs: FileSystem)
    requires !config.enabled || fs(config.path).Missing? || fs(config.path).NoSpec?
    ensures Load(s, watchReload, config, fs) == (s, false)
  {
  }

  /** A raising `exec_module`: False, both dictionaries and the order as
      they were, but `sys.modules[name]` already holds the new object. */
  lemma LoadExecRaises(s: LoaderState, watchReload: bool, config: ModuleConfig, fs: FileSystem)
    requires config.enabled && fs(config.path).Code? && fs(config.path).execRaises
    ensures var (s', ok) := Load(s, watchReload, config, fs);
      && !ok
      && s'.modules == s.modules && s'.configs == s.configs && s'.order == s.order
      && s'.watched == s.watched && s'.observer == s.observer
      && s'.sysModules == s.sysModules[config.name := ModuleObject(s.nextId, Some(config.path), fs(config.path).hooks)]
  {
  }

  /** A successful load registers a fresh object for the name, together with
      its config, keeps every other name as it was, and watches the module's
      directory when hot reload is on. */
  lemma LoadSuccess(s: LoaderState, watchReload: bool, config: ModuleConfig, fs: FileSystem)
    requires Inv(s)
    ensures Load(s, watchReload, config, fs).1 == LoadSucceeds(config, fs)
    ensures LoadSucceeds(config, fs) ==>
      var s' := Load(s, watchReload, config, fs).0;
      && config.name in s'.modules && config.name in s'.configs
      && s'.modules[config.name] == ModuleObject(s.nextId, Some(config.path), fs(config.path).hooks)
      && s'.configs[config.name] == config
      && s'.sysModules[config.name] == s'.modules[config.name]
      && (forall n :: n in s.modules && n != config.name ==> n in s'.modules && s'.modules[n] == s.modules[n])
      && (forall n :: n in s'.modules && n != config.name ==> n in s.modules)
      && (config.name in s.modules ==> s'.order == s.order)
      && (config.name !in s.modules ==> s'.order == s.order + [config.name])
      && (watchReload ==> s'.watched == s.watched + {Paths.Parent(config.path)} && !s'.observer.NoObserver?)
      && (!watchReload ==> s'.watched == s.watched && s'.observer == s.observer)
  {
    if LoadSucceeds(config, fs) {
      var obj := ModuleObject(s.nextId, Some(config.path), fs(config.path).hooks);
      var s2 := s.(sysModules := s.sysModules[config.name := obj], nextId := s.nextId + 1,
                   modules := s.modules[config.name := obj],
                   configs := s.configs[config.name := config],
                   order := if config.name in s.modules then s.order else s.order + [config.name]);
      LoadRegisters(s, watchReload, config, fs, s2);
      LoadWatches(s, watchReload, config, fs, s2);
    }
  }

  /** The registries after a successful load. */
  lemma LoadRegisters(s: LoaderState, watchReload: bool, config: ModuleConfig, fs: FileSystem, s2: LoaderState)
    requires LoadSucceeds(config, fs)
    requires var obj := ModuleObject(s.nextId, Some(config.path), fs(config.path).hooks);
      s2 == s.(sysModules := s.sysModules[config.name := obj], nextId := s.nextId + 1,
               modules := s.modules[config.name := obj],
               configs := s.configs[config.name := config],
               order := if config.name in s.modules then s.order else s.order + [config.name])
    ensures var s' := Load(s, watchReload, config, fs).0;
      s'.modules == s2.modules && s'.configs == s2.configs && s'.sysModules == s2.sysModules && s'.order == s2.order
  {
    assert Load(s, watchReload, config, fs).0 == if watchReload then Watch(s2, Paths.Parent(config.path)) else s2;
  }

  /** The observer and the watched set after a successful load. */
  lemma LoadWatches(s: LoaderState, watchReload: bool, config: ModuleConfig, fs: FileSystem, s2: LoaderState)
    requires Inv(s) && LoadSucceeds(config, fs)
    requires var obj := ModuleObject(s.nextId, Some(config.path), fs(config.path).hooks);
      s2 == s.(sysModules := s.sysModules[config.name := obj], nextId := s.nextId + 1,
               modules := s.modules[config.name := obj],
               configs := s.configs[config.name := config],
               order := if config.name in s.modules then s.order else s.order + [config.name])
    ensures var s' := Load(s, watchReload, config, fs).0;
      && (watchReload ==> s'.watched == s.watched + {Paths.Parent(config.path)} && !s'.observer.NoObserver?)
      && (!watchReload ==> s'.watched == s.watched && s'.observer == s.observer)
  {
    assert Load(s, watchReload, config, fs).0 == if watchReload then Watch(s2, Paths.Parent(config.path)) else s2;
  }

  lemma UnloadKeepsInv(s: LoaderState, name: string)
    requires Inv(s)
    ensures Inv(Unload(s, name).0)
  {
  }

  /** `unload_module`: an unknown name and a raising `shutdown` hook give
      False with nothing changed; otherwise the name leaves `_modules`,
      `_module_configs` and `sys.modules`, and nothing else changes. */
  lemma UnloadSpec(s: LoaderState, name: string)
    requires Inv(s)
    ensures name !in s.modules ==> Unload(s, name) == (s, false)
    ensures name in s.modules && s.modules[name].hooks.shutdown.Raises? ==> Unload(s, name) == (s, false)
    ensures name in s.modules && !s.modules[name].hooks.shutdown.Raises? ==>
      var (s', ok) := Unload(s, name);
      && ok
      && name !in s'.modules && name !in s'.configs && name !in s'.sysModules && name !in s'.order
      && (forall n :: n != name ==> (n in s'.modules <==> n in s.modules))
      && (forall n :: n in s'.modules ==> s'.modules[n] == s.modules[n] && s'.configs[n] == s.configs[n])
      && s'.observer == s.observer && s'.watched == s.watched
  {
  }

  /** `reload_module`: without a stored config it returns False and changes
      nothing; otherwise it returns exactly what loading the stored config
      returns.  On success the name holds a new object, different from the
      one it held; when the unload succeeded but the load failed, the name is
      gone.  Other names are untouched. */
  lemma ReloadSpec(s: LoaderState, watchReload: bool, name: string, fs: FileSystem)
    requires Inv(s)
    ensures name !in s.configs ==> Reload(s, watchReload, name, fs) == (s, false)
    ensures name in s.configs ==>
      var (s', ok) := Reload(s, watchReload, name, fs);
      && Inv(s')
      && ok == LoadSucceeds(s.configs[name], fs)
      && (ok ==> name in s'.modules && s'.modules[name] != s.modules[name] && s'.modules[name].id >= s.nextId)
      && (!ok && !s.modules[name].hooks.shutdown.Raises? ==> name !in s'.modules && name !in s'.configs)
      && (!ok && s.modules[name].hooks.shutdown.Raises? ==> name in s'.modules && s'.modules[name] == s.modules[name])
      && (forall n :: n != name ==> (n in s'.modules <==> n in s.modules))
      && (forall n :: n != name && n in s.modules ==> s'.modules[n] == s.modules[n])
  {
    if name in s.configs {
      var u := Unload(s, name).0;
      UnloadSpec(s, name);
      UnloadKeepsInv(s, name);
      LoadKeepsInv(u, watchReload, s.configs[name], fs);
      LoadSuccess(u, watchReload, s.configs[name], fs);
      assert s.configs[name].name == name;
    }
  }

  /** `reload_module_by_path` reloads only the first module, in dictionary
      order, whose config path equals the file path; with no such module
      nothing changes. */
  lemma ReloadByPathSpec(s: LoaderState, watchReload: bool, path: string, fs: FileSystem)
    requires Inv(s)
    ensures Inv(ReloadByPath(s, watchReload, path, fs))
    ensures (forall n :: n in s.configs ==> s.configs[n].path != path) ==> ReloadByPath(s, watchReload, path, fs) == s
    ensures forall i :: 0 <= i < |s.order| && s.configs[s.order[i]].path == path &&
                        (forall j :: 0 <= j < i ==> s.configs[s.order[j]].path != path) ==>
              ReloadByPath(s, watchReload, path, fs) == Reload(s, watchReload, s.order[i], fs).0
  {
    assert Inv(ReloadByPath(s, watchReload, path, fs)) by {
      var first := FirstWithPath(s.order, s.configs, path);
      if first.Some? {
        ReloadSpec(s, watchReload, first.value, fs);
      }
    }
    forall i | 0 <= i < |s.order| && s.configs[s.order[i]].path == path &&
               (forall j :: 0 <= j < i ==> s.configs[s.order[j]].path != path)
      ensures FirstWithPath(s.order, s.configs, path) == Some(s.order[i])
    {
      FirstMatchIsAt(s.order, s.configs, path, i);
    }
  }

  lemma {:induction false} FirstMatchIsAt(names: seq<string>, configs: map<string, ModuleConfig>, path: string, i: nat)
    requires i < |names| && (forall n :: n in names ==> n in configs)
    requires configs[names[i]].path == path
    requires forall j :: 0 <= j < i ==> configs[names[j]].path != path
    ensures FirstWithPath(names, configs, path) == Some(names[i])
  {
    if i > 0 {
      assert forall n :: n in names[1..] ==> n in names;
      FirstMatchIsAt(names[1..], configs, path, i - 1);
    }
  }

  lemma {:induction false} LoadManyKeepsInv(s: LoaderState, watchReload: bool, configs: seq<ModuleConfig>,
                                            fs: FileSystem, results: map<string, bool>)
    requires Inv(s)
    decreases |configs|
    ensures Inv(LoadMany(s, watchReload, configs, fs, results).0)
    ensures LoadMany(s, watchReload, configs, fs, results).1.Keys == results.Keys + set c | c in configs :: c.name
  {
    if configs != [] {
      LoadKeepsInv(s, watchReload, configs[0], fs);
      var (s1, ok) := Load(s, watchReload, configs[0], fs);
      LoadManyKeepsInv(s1, watchReload, configs[1..], fs, results[configs[0].name := ok]);
      assert (set c | c in configs :: c.name) == {configs[0].name} + set c | c in configs[1..] :: c.name;
    }
  }

  lemma {:induction false} UnloadAllKeepsInv(s: LoaderState, names: seq<string>)
    requires Inv(s)
    ensures Inv(UnloadAll(s, names))
    ensures UnloadAll(s, names).observer == s.observer && UnloadAll(s, names).watched == s.watched
    decreases |names|
  {
    if names != [] {
      UnloadKeepsInv(s, names[0]);
      UnloadAllKeepsInv(Unload(s, names[0]).0, names[1..]);
    }
  }

  /** The modules left registered after unloading `names`: those not in the
      list, and those whose `shutdown` hook raised. */
  function Survivors(modules: map<string, ModuleObject>, names: seq<string>): map<string, ModuleObject> {
    map n | n in modules && (n !in names || modules[n].hooks.shutdown.Raises?) :: modules[n]
  }

  /** Unloading distinct names one after another leaves registered exactly
      the modules that were not in the list or whose `shutdown` raised. */
  lemma {:induction false} UnloadAllSpec(s: LoaderState, names: seq<string>)
    requires Distinct(names)
    ensures UnloadAll(s, names).modules == Survivors(s.modules, names)
    decreases |names|
  {
    if names == [] {
      assert Survivors(s.modules, names) == s.modules;
    } else {
      var x := names[0];
      var s1 := Unload(s, x).0;
      assert Distinct(names[1..]);
      UnloadAllSpec(s1, names[1..]);
      assert x !in names[1..] by {
        forall k | 0 <= k < |names[1..]| ensures names[1..][k] != x {
          assert names[1..][k] == names[k + 1];
        }
      }
      assert forall n :: n in names <==> n == x || n in names[1..] by {
        assert names == [x] + names[1..];
      }
      if x in s.modules && !s.modules[x].hooks.shutdown.Raises? {
        assert s1.modules == s.modules - {x};
      } else {
        assert s1.modules == s.modules;
      }
      assert Survivors(s1.modules, names[1..]) == Survivors(s.modules, names);
    }
  }

  /** `shutdown` stops an existing observer and leaves registered exactly the
      modules whose `shutdown` hook raised. */
  lemma ShutdownSpec(s: LoaderState)
    requires Inv(s)
    ensures Inv(ShutdownState(s))
    ensures ShutdownState(s).modules == map n | n in s.modules && s.modules[n].hooks.shutdown.Raises? :: s.modules[n]
    ensures ShutdownState(s).observer == if s.observer.NoObserver? then NoObserver else Stopped
    ensures ShutdownState(s).watched == s.watched
  {
    var t := StopObserver(s);
    assert Inv(t) && t.modules == s.modules;
    assert Inv(ShutdownState(s)) && ShutdownState(s).observer == t.observer && ShutdownState(s).watched == s.watched by {
      UnloadAllKeepsInv(t, s.order);
    }
    assert ShutdownState(s).modules == Survivors(s.modules, s.order) by {
      UnloadAllSpec(t, s.order);
    }
    SurvivorsOfAll(s.modules, s.order);
  }

  /** When every module is in the list, only those whose `shutdown` raised survive. */
  lemma SurvivorsOfAll(modules: map<string, ModuleObject>, names: seq<string>)
    requires forall n :: n in modules ==> n in names
    ensures Survivors(modules, names) == map n | n in modules && modules[n].hooks.shutdown.Raises? :: modules[n]
  {
  }

  // ---------------------------------------------------------------------
  // The loader object.

  class ModuleLoader {
    var modules: map<string, ModuleObject>
    var moduleConfigs: map<string, ModuleConfig>
    var order: seq<string>
    var sysModules: map<string, ModuleObject>
    const watchReload: bool
    var observer: Observer
    var watchedPaths: set<string>
    var nextId: nat

    function View(): LoaderState
      reads this
    {
      LoaderState(modules, moduleConfigs, order, sysModules, observer, watchedPaths, nextId)
    }

    ghost predicate Valid()
      reads this
    {
      Inv(View())
    }

    constructor (watchReload: bool)
      ensures Valid() && View() == EmptyLoader() && this.watchReload == watchReload
    {
      this.watchReload := watchReload;
      modules, moduleConfigs, order, sysModules := map[], map[], [], map[];
      observer, watchedPaths, nextId := NoObserver, {}, 0;
    }

    method WatchPath(path: string)
      modifies this
      ensures View() == Watch(old(View()), path)
    {
      if path in watchedPaths {
        return;
      }
      if observer.NoObserver? {
        observer := Running;
      }
      watchedPaths := watchedPaths + {path};
    }

    method LoadModule(config: ModuleConfig, fs: FileSystem) returns (ok: bool)
      requires Valid()
      modifies this
      ensures Valid() && (View(), ok) == Load(old(View()), watchReload, config, fs)
    {
      ghost var s0 := View();
      ok := false;
      var source := fs(config.path);
      // a missing file and a file without a module spec both give False
      if config.enabled && source.Code? {
        var obj := ModuleObject(nextId, Some(config.path), source.hooks);
        nextId := nextId + 1;
        sysModules := sysModules[config.name := obj];
        if !source.execRaises {
          Register(config, obj);
          if watchReload {
            WatchPath(Paths.Parent(config.path));
          }
          ok := true;
        }
      }
      LoadKeepsInv(s0, watchReload, config, fs);
    }

    /** The successful tail of `load_module`: store the module and its config. */
    method Register(config: ModuleConfig, obj: ModuleObject)
      modifies this
      ensures View() == old(View()).(modules := old(modules)[config.name := obj],
                                     configs := old(moduleConfigs)[config.name := config],
                                     order := if config.name in old(modules) then old(order) else old(order) + [config.name])
    {
      if config.name !in modules {
        order := order + [config.name];
      }
      modules := modules[config.name := obj];
      moduleConfigs := moduleConfigs[config.name := config];
    }

    method LoadModules(configs: seq<ModuleConfig>, fs: FileSystem) returns (results: map<string, bool>)
      requires Valid()
      modifies this
      ensures Valid() && (View(), results) == LoadMany(old(View()), watchReload, configs, fs, map[])
    {
      results := map[];
      var i := 0;
      while i < |configs|
        invariant 0 <= i <= |configs|
        invariant Valid()
        invariant LoadMany(View(), watchReload, configs[i..], fs, results) == LoadMany(old(View()), watchReload, configs, fs, map[])
      {
        assert configs[i..][1..] == configs[i + 1..];
        var ok := LoadModule(configs[i], fs);
        results := results[configs[i].name := ok];
        i := i + 1;
      }
    }

    method UnloadModule(name: string) returns (ok: bool)
      requires Valid()
      modifies this
      ensures Valid() && (View(), ok) == Unload(old(View()), name)
    {
      UnloadKeepsInv(View(), name);
      if name !in modules {
        return false;
      }
      var obj := modules[name];
      if obj.hooks.shutdown.Raises? {
        // the exception is caught and logged
        return false;
      }
      if name in sysModules {
        sysModules := sysModules - {name};
      } else {
        assert sysModules - {name} == sysModules;
      }
      modules := modules - {name};
      moduleConfigs := moduleConfigs - {name};
      order := Remove(order, name);
      ok := true;
    }

    method ReloadModule(name: string, fs: FileSystem) returns (ok: bool)
      requires Valid()
      modifies this
      ensures Valid() && (View(), ok) == Reload(old(View()), watchReload, name, fs)
    {
      if name !in moduleConfigs {
        return false;
      }
      var config := moduleConfigs[name];
      var _ := UnloadModule(name);
      ok := LoadModule(config, fs);
    }

    method ReloadModuleByPath(filePath: string, fs: FileSystem)
      requires Valid()
      modifies this
      ensures Valid() && View() == ReloadByPath(old(View()), watchReload, filePath, fs)
    {
      var i := 0;
      while i < |order|
        invariant 0 <= i <= |order|
        invariant FirstWithPath(order[i..], moduleConfigs, filePath) == FirstWithPath(order, moduleConfigs, filePath)
      {
        var name := order[i];
        if name in moduleConfigs && moduleConfigs[name].path == filePath {
          var _ := ReloadModule(name, fs);
          return;
        }
        assert order[i..][1..] == order[i + 1..];
        i := i + 1;
      }
    }

    method GetModule(name: string) returns (m: Option<ModuleObject>)
      ensures name in modules ==> m == Some(modules[name])
      ensures name !in modules ==> m == None
    {
      m := if name in modules then Some(modules[name]) else None;
    }

    /** `get_loaded_modules`: the registered names in dictionary order. */
    method GetLoadedModules() returns (names: seq<string>)
      ensures names == order
      ensures Valid() ==> (forall n :: n in names <==> n in modules) && Distinct(names)
    {
      names := order;
    }

    method Shutdown()
      requires Valid()
      modifies this
      ensures Valid() && View() == ShutdownState(old(View()))
    {
      ghost var s0 := View();
      if !observer.NoObserver? {
        observer := Stopped;
      }
      assert View() == StopObserver(s0);
      ShutdownSpec(s0);
      var names := order;
      var i := 0;
      while i < |names|
        invariant 0 <= i <= |names|
        invariant Valid()
        invariant UnloadAll(View(), names[i..]) == ShutdownState(old(View()))
      {
        assert names[i..][1..] == names[i + 1..];
        var _ := UnloadModule(names[i]);
        i := i + 1;
      }
    }
  }

  /** `ModuleReloadHandler`: the watchdog event handler bound to a loader. */
  class ModuleReloadHandler {
    const loader: ModuleLoader

    constructor (loader: ModuleLoader)
      ensures this.loader == loader
    {
      this.loader := loader;
    }

    /** `on_modified`: directory events and files whose suffix is not ".py"
        are ignored; otherwise the module at that path is reloaded. */
    method OnModified(isDirectory: bool, srcPath: string, fs: FileSystem)
      requires loader.Valid()
      modifies loader
      ensures loader.Valid()
      ensures isDirectory || Paths.Suffix(srcPath) != ".py" ==> loader.View() == old(loader.View())
      ensures !isDirectory && Paths.Suffix(srcPath) == ".py" ==>
                loader.View() == ReloadByPath(old(loader.View()), loader.watchReload, srcPath, fs)
    {
      if isDirectory {
        return;
      }
      if Paths.Suffix(srcPath) == ".py" {
        loader.ReloadModuleByPath(srcPath, fs);
      }
    }
  }
}
