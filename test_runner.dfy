/** The test runner: collecting the test paths a loaded module declares
    through `get_tests()`, aggregating them with the main tests directory,
    and choosing the exit code.  The file system is two oracles (`resolve`
    for `Path.resolve()`, `present` for `Path.exists()`) and the pytest run
    is an outcome parameter. */
module Testing {
  import opened Data
  import Loader
  import Paths

  type Resolver = string -> string
  type Present = string -> bool

  /** The test paths named by `items`, relative to `dir`: string entries
      only, resolved, and only those that exist, in order. */
  function ExistingPaths(items: seq<Value>, dir: string, resolve: Resolver, present: Present): (r: seq<string>)
    ensures |r| <= |items|
    decreases |items|
  {
    if items == [] then []
    else
      var rest := ExistingPaths(items[1..], dir, resolve, present);
      if items[0].Str? && present(resolve(Paths.Join(dir, items[0].s))) then [resolve(Paths.Join(dir, items[0].s))] + rest
      else rest
  }

  /** What `discover_module_tests` returns for a module object. */
  function Discovered(m: Loader.ModuleObject, resolve: Resolver, present: Present): seq<string> {
    match m.hooks.getTests
    case NoGetTests => []
    case GetTestsRaises => []
    case GetTestsReturns(v) =>
      if !v.List? || m.file.None? then []
      else ExistingPaths(v.items, Paths.Parent(m.file.value), resolve, present)
  }

  /** A path is discovered exactly when some string entry resolves to it
      and it exists. */
  lemma {:induction false} ExistingPathsMembers(items: seq<Value>, dir: string, resolve: Resolver, present: Present, p: string)
    ensures p in ExistingPaths(items, dir, resolve, present) <==>
              exists i :: 0 <= i < |items| && items[i].Str? && resolve(Paths.Join(dir, items[i].s)) == p && present(p)
    decreases |items|
  {
    if items != [] {
      ExistingPathsMembers(items[1..], dir, resolve, present, p);
      if p in ExistingPaths(items[1..], dir, resolve, present) {
        var i :| 0 <= i < |items[1..]| && items[1..][i].Str? && resolve(Paths.Join(dir, items[1..][i].s)) == p && present(p);
        assert items[i + 1] == items[1..][i];
      }
      forall i | 1 <= i < |items| && items[i].Str? && resolve(Paths.Join(dir, items[i].s)) == p && present(p)
        ensures p in ExistingPaths(items[1..], dir, resolve, present)
      {
        assert items[1..][i - 1] == items[i];
      }
    }
  }

  /** Without `get_tests`, with a raising or non-list `get_tests()`, or
      without `__file__`, a module contributes nothing; otherwise every path
      it contributes exists. */
  lemma DiscoveredSpec(m: Loader.ModuleObject, resolve: Resolver, present: Present)
    ensures m.hooks.getTests.NoGetTests? || m.hooks.getTests.GetTestsRaises? ==> Discovered(m, resolve, present) == []
    ensures m.hooks.getTests.GetTestsReturns? && !m.hooks.getTests.result.List? ==> Discovered(m, resolve, present) == []
    ensures m.file.None? ==> Discovered(m, resolve, present) == []
    ensures forall p :: p in Discovered(m, resolve, present) ==> present(p)
  {
    if m.hooks.getTests.GetTestsReturns? && m.hooks.getTests.result.List? && m.file.Some? {
      forall p | p in Discovered(m, resolve, present) ensures present(p) {
        ExistingPathsMembers(m.hooks.getTests.result.items, Paths.Parent(m.file.value), resolve, present, p);
      }
    }
  }

  /** `discover_module_tests`. */
  method DiscoverModuleTests(m: Loader.ModuleObject, resolve: Resolver, present: Present) returns (testPaths: seq<string>)
    ensures testPaths == Discovered(m, resolve, present)
  {
    testPaths := [];
    if m.hooks.getTests.NoGetTests? {
      return;
    }
    if m.hooks.getTests.GetTestsRaises? {
      // the exception is logged and an empty list returned
      return [];
    }
    var relativePaths := m.hooks.getTests.result;
    if !relativePaths.List? {
      return;
    }
    if m.file.None? {
      return;
    }
    var moduleDir := Paths.Parent(m.file.value);
    var items := relativePaths.items;
    var i := 0;
    while i < |items|
      invariant 0 <= i <= |items|
      invariant testPaths + ExistingPaths(items[i..], moduleDir, resolve, present) ==
                ExistingPaths(items, moduleDir, resolve, present)
    {
      assert items[i..][1..] == items[i + 1..];
      var relPath := items[i];
      i := i + 1;
      if !relPath.Str? {
        continue;
      }
      var absPath := resolve(Paths.Join(moduleDir, relPath.s));
      if !present(absPath) {
        continue;
      }
      testPaths := testPaths + [absPath];
    }
    assert items[i..] == [];
  }

  /** The module test paths, in the order the loader lists its modules; a
      name without a module is skipped. */
  function ModulePaths(names: seq<string>, modules: map<string, Loader.ModuleObject>, resolve: Resolver,
                       present: Present): seq<string>
    decreases |names|
  {
    if names == [] then []
    else
      var rest := ModulePaths(names[1..], modules, resolve, present);
      if names[0] in modules then Discovered(modules[names[0]], resolve, present) + rest else rest
  }

  /** All the paths `run_all_tests` hands to pytest: the main tests directory
      first, when it exists, then each loaded module's paths. */
  function AggregatePaths(s: Loader.LoaderState, mainTestsDir: string, resolve: Resolver, present: Present): seq<string> {
    (if present(mainTestsDir) then [mainTestsDir] else []) + ModulePaths(s.order, s.modules, resolve, present)
  }

  lemma {:induction false} ModulePathsExist(names: seq<string>, modules: map<string, Loader.ModuleObject>,
                                            resolve: Resolver, present: Present)
    ensures forall p :: p in ModulePaths(names, modules, resolve, present) ==> present(p)
    decreases |names|
  {
    if names != [] {
      ModulePathsExist(names[1..], modules, resolve, present);
      if names[0] in modules {
        DiscoveredSpec(modules[names[0]], resolve, present);
      }
    }
  }

  /** Every aggregated path exists, and the main tests directory, when it
      exists, comes first. */
  lemma AggregateSpec(s: Loader.LoaderState, mainTestsDir: string, resolve: Resolver, present: Present)
    ensures forall p :: p in AggregatePaths(s, mainTestsDir, resolve, present) ==> present(p)
    ensures present(mainTestsDir) ==> AggregatePaths(s, mainTestsDir, resolve, present)[0] == mainTestsDir
    ensures !present(mainTestsDir) ==>
              AggregatePaths(s, mainTestsDir, resolve, present) == ModulePaths(s.order, s.modules, resolve, present)
  {
    ModulePathsExist(s.order, s.modules, resolve, present);
  }

  /** How `pytest.main(args)` ends. */
  datatype PytestOutcome = NotInstalled | Raised | Exited(code: int)

  const PytestFlags: seq<string> := ["-v", "--tb=short", "--color=yes"]

  /** One iteration of the module loop of `run_all_tests`: a name the loader
      has no module for contributes nothing. */
  method ModuleTests(loader: Loader.ModuleLoader, name: string, resolve: Resolver, present: Present)
    returns (moduleTests: seq<string>)
    ensures name in loader.modules ==> moduleTests == Discovered(loader.modules[name], resolve, present)
    ensures name !in loader.modules ==> moduleTests == []
  {
    var m := loader.GetModule(name);
    if m.None? {
      return [];
    }
    moduleTests := DiscoverModuleTests(m.value, resolve, present);
  }

  /** The collection phase of `run_all_tests`. */
  method CollectTestPaths(loader: Loader.ModuleLoader, mainDir: string, resolve: Resolver, present: Present)
    returns (testPaths: seq<string>)
    ensures testPaths == AggregatePaths(loader.View(), mainDir, resolve, present)
  {
    testPaths := [];
    if present(mainDir) {
      testPaths := testPaths + [mainDir];
    }
    var loaded := loader.GetLoadedModules();
    ghost var modules := loader.modules;
    ghost var head := testPaths;
    var i := 0;
    while i < |loaded|
      invariant 0 <= i <= |loaded|
      invariant testPaths + ModulePaths(loaded[i..], modules, resolve, present) == head + ModulePaths(loaded, modules, resolve, present)
    {
      ghost var rest := ModulePaths(loaded[i + 1..], modules, resolve, present);
      var moduleTests := ModuleTests(loader, loaded[i], resolve, present);
      assert loaded[i..][0] == loaded[i] && loaded[i..][1..] == loaded[i + 1..];
      assert ModulePaths(loaded[i..], modules, resolve, present) == moduleTests + rest;
      if moduleTests != [] {
        assert (testPaths + moduleTests) + rest == testPaths + (moduleTests + rest);
        testPaths := testPaths + moduleTests;
      }
      i := i + 1;
    }
    assert loaded[i..] == [] && testPaths + [] == testPaths;
  }

  /** `run_all_tests`: collect the paths; with none, 0 and no pytest run;
      otherwise pytest's exit code, or 2 when pytest is missing or raises.
      `args` is the argument list pytest was invoked with, if it was. */
  method RunAllTests(loader: Loader.ModuleLoader, mainTestsDir: Option<string>, resolve: Resolver, present: Present,
                     pytest: PytestOutcome)
    returns (exitCode: int, args: Option<seq<string>>)
    ensures var paths := AggregatePaths(loader.View(), mainTestsDir.GetOr("tests"), resolve, present);
      && (paths == [] ==> exitCode == 0 && args.None?)
      && (paths != [] ==> args == Some(PytestFlags + paths))
      && (paths != [] && pytest.Exited? ==> exitCode == pytest.code)
      && (paths != [] && !pytest.Exited? ==> exitCode == 2)
  {
    var testPaths := CollectTestPaths(loader, mainTestsDir.GetOr("tests"), resolve, present);
    if testPaths == [] {
      return 0, None;
    }
    args := Some(PytestFlags + testPaths);
    match pytest
    case NotInstalled => exitCode := 2;
    case Raised => exitCode := 2;
    case Exited(code) => exitCode := code;
  }
}
