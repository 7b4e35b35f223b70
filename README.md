# A verified model of the `main_app` plugin runtime

`main_app` is a small Python application host. It loads plugin modules
declared in YAML configuration, wires them to an in-process event bus, can
hot-reload a module when its file changes, reports errors to a webhook,
and sizes process pools from the machine's memory and CPUs. This project
models the core of that runtime in Dafny and proves what the code promises
about it. The core consists of:

- the module loader (`ModuleConfig`, `ModuleLoader`, `ModuleReloadHandler`);
- the event bus;
- the parts of `Application` that load modules, choose the notifier and
  shut down;
- `${NAME}` substitution and the merge of the configuration files;
- the resource and platform tables;
- test discovery and the test runner's exit code;
- the process pool's bookkeeping;
- the webhook notifier's switch and payload.

Layout: one Dafny module per source file (`Loader`, `Bus`, `App`,
`ConfigLoader`, `Resources`, `Platform`, `Testing`, `Pool`, `Webhook`),
plus `Data` for the shared value tree (`Value`, which models what YAML and
JSON documents hold, with string keys only, together with `Option` and `Result`) and `Paths` for the
few `pathlib` operations the code uses.

Source classes that update their own fields (`ModuleLoader`, `EventBus`,
`Application`, `ProcessPool`, `ProcessInfo`, `WebhookNotifier`) are
Dafny classes with `modifies` clauses. For the loader, each method is proved
to agree with a function on a `LoaderState` value (`Load`, `Unload`,
`Reload`, `ReloadByPath`, `LoadMany`, `ShutdownState`), and the lemmas about
those functions carry the properties. The configuration code, the platform
tables and the resource figures are pure functions.

The world outside is passed in as parameters:

- the import machinery is a `FileSystem` oracle: missing file, no module
  spec, or code that raises or defines some hooks;
- whether a bus callback raises is a `raises` oracle;
- a YAML file arrives as a `FileState`, the environment as a map;
- `psutil` readings, the `platform` and `signal` answers, the HTTP outcome
  and the pytest outcome are plain values.

## Model

| member | source | states |
|---|---|---|
| Paths.PySuffixIff | src/main_app/core/module_loader.py:48-61 | the `.suffix == ".py"` test holds exactly when the file name ends in ".py" with at least one character before it |
| Loader.FirstWithPath | src/main_app/core/module_loader.py:202-214 | the name found is registered and its config has the given path; with no result, no registered config has that path |
| Loader.WatchKeepsInv | src/main_app/core/module_loader.py:237-255 | watching a directory keeps the loader invariant |
| Loader.WatchIdempotent | src/main_app/core/module_loader.py:237-255 | watching twice is the same as watching once; the watched set grows by exactly that directory; an existing observer is reused and afterwards one always exists |
| Loader.LoadKeepsInv | src/main_app/core/module_loader.py:90-134 | every outcome of `load_module` keeps the invariant: the two dictionaries have the same keys in one order without repeats, stored configs are enabled and keyed by their name, identities are fresh |
| Loader.LoadRefused | src/main_app/core/module_loader.py:100-115 | a disabled config, a missing file or a missing spec gives False and leaves the loader unchanged |
| Loader.LoadExecRaises | src/main_app/core/module_loader.py:117-134 | a raising `exec_module` gives False with the registries unchanged, but `sys.modules[name]` already holds the new object |
| Loader.LoadSuccess | src/main_app/core/module_loader.py:90-134 | True exactly when the config is enabled and the code runs; then the name maps to a fresh object and its config, and the same object is in `sys.modules`; other names are kept; a new name goes to the end of the order; the directory is watched when hot reload is on |
| Loader.LoadRegisters | src/main_app/core/module_loader.py:117-123 | after a successful load the modules, configs, `sys.modules` and order are the store-and-register updates |
| Loader.LoadWatches | src/main_app/core/module_loader.py:125-127 | after a successful load the module's parent directory is watched when hot reload is on; otherwise watching is untouched |
| Loader.UnloadKeepsInv | src/main_app/core/module_loader.py:151-182 | unloading keeps the invariant |
| Loader.UnloadSpec | src/main_app/core/module_loader.py:151-182 | an unknown name or a raising `shutdown` hook gives False and changes nothing; otherwise the name leaves `_modules`, `_module_configs`, `sys.modules` and the order, and every other module, config and the watch state stay |
| Loader.ReloadSpec | src/main_app/core/module_loader.py:184-200 | without a stored config: False and nothing changes; otherwise the result is whether the stored config loads; on success the name holds a new object; on failure the module is gone unless its `shutdown` raised; other names are untouched |
| Loader.ReloadByPathSpec | src/main_app/core/module_loader.py:202-214 | only the first module in dictionary order whose config path equals the file path is reloaded; with none, nothing changes; the invariant is kept |
| Loader.FirstMatchIsAt | src/main_app/core/module_loader.py:209-214 | the search returns the first position whose config path matches |
| Loader.LoadManyKeepsInv | src/main_app/core/module_loader.py:136-149 | `load_modules` keeps the invariant, and its result dictionary has one key per config name |
| Loader.UnloadAllKeepsInv | src/main_app/core/module_loader.py:257-269 | unloading a list of names keeps the invariant and the observer and watched set |
| Loader.UnloadAllSpec | src/main_app/core/module_loader.py:257-269 | unloading distinct names one after another leaves exactly the modules not in the list or whose `shutdown` raised |
| Loader.ShutdownSpec | src/main_app/core/module_loader.py:257-269 | shutdown stops an existing observer, keeps the watched set, and leaves registered exactly the modules whose `shutdown` hook raised |
| Loader.SurvivorsOfAll | src/main_app/core/module_loader.py:265-269 | when every module is in the unloaded list, the survivors are those whose `shutdown` raised |
| Loader.ModuleLoader.constructor | src/main_app/core/module_loader.py:75-88 | an empty loader with no observer and the given hot-reload flag |
| Loader.ModuleLoader.WatchPath | src/main_app/core/module_loader.py:237-255 | the new state is `Watch` of the old one |
| Loader.ModuleLoader.LoadModule | src/main_app/core/module_loader.py:90-134 | the new state and the result are `Load` of the old state, and the invariant is kept |
| Loader.ModuleLoader.Register | src/main_app/core/module_loader.py:121-123 | stores the object and the config under the name, appending a new name to the order |
| Loader.ModuleLoader.LoadModules | src/main_app/core/module_loader.py:136-149 | state and results are `LoadMany` over the configs in order, later results for a name overwriting earlier ones |
| Loader.ModuleLoader.UnloadModule | src/main_app/core/module_loader.py:151-182 | state and result are `Unload` of the old state |
| Loader.ModuleLoader.ReloadModule | src/main_app/core/module_loader.py:184-200 | state and result are `Reload`: unload, then load the stored config again |
| Loader.ModuleLoader.ReloadModuleByPath | src/main_app/core/module_loader.py:202-214 | the new state is `ReloadByPath` of the old one |
| Loader.ModuleLoader.GetModule | src/main_app/core/module_loader.py:216-226 | the registered object, or None for an unknown name |
| Loader.ModuleLoader.GetLoadedModules | src/main_app/core/module_loader.py:228-235 | the registered names in dictionary order: each module once |
| Loader.ModuleLoader.Shutdown | src/main_app/core/module_loader.py:257-269 | the new state is `ShutdownState`: observer stopped, every module unloaded in order from a snapshot of the names |
| Loader.ModuleReloadHandler.constructor | src/main_app/core/module_loader.py:38-46 | the handler is bound to the given loader |
| Loader.ModuleReloadHandler.OnModified | src/main_app/core/module_loader.py:48-61 | directory events and non-".py" files change nothing; otherwise the loader reloads by that path |
| Bus.IndexOf | src/main_app/core/event_bus.py:55-57 | the position of the first occurrence of the callback |
| Bus.RemoveFirstSpec | src/main_app/core/event_bus.py:47-58 | removing a subscribed callback takes out exactly one copy, so the list shrinks by one; removing an absent one changes nothing |
| Bus.SubscribeThenUnsubscribe | src/main_app/core/event_bus.py:35-58 | subscribe followed by unsubscribe restores the count, and the very list when the callback was new |
| Bus.EventBus.constructor | src/main_app/core/event_bus.py:29-33 | no topic has subscribers |
| Bus.EventBus.Subscribe | src/main_app/core/event_bus.py:35-45 | the callback is appended to its topic, duplicates allowed; other topics are unchanged |
| Bus.EventBus.Unsubscribe | src/main_app/core/event_bus.py:47-58 | the first occurrence is removed, if any; other topics are unchanged |
| Bus.EventBus.Publish | src/main_app/core/event_bus.py:60-80 | each subscriber is called once, in order, with the same data; a raising callback does not stop the later ones; the log is `Deliver` of the topic's list |
| Bus.Deliver | src/main_app/core/event_bus.py:72-80 | delivering to a list records each callback once, in order, with the same data and its own outcome |
| Bus.EventBus.Clear | src/main_app/core/event_bus.py:82-95 | a non-empty topic name clears only that topic; None or "" clears every topic |
| Bus.EventBus.GetSubscriberCount | src/main_app/core/event_bus.py:97-108 | the length of the topic's list, 0 for an unknown topic |
| App.StripBlank | src/main_app/core/application.py:102 | `url.strip()` is empty exactly when every character is whitespace |
| App.WebhookSetup | src/main_app/core/application.py:95-112 | an enabled notifier always has a URL that is not blank; a disabled one has no URL and the 10-second default |
| App.WebhookEnabledIff | src/main_app/core/application.py:95-112 | with a string URL the decision does not fail, and the notifier is enabled exactly when the flag is truthy and the URL has a non-space character; the URL is passed unstripped |
| App.NoWebhookSection | src/main_app/core/application.py:96-112 | without an `error_handling` section the notifier is disabled |
| App.InitializeNotifier | src/main_app/core/application.py:95-112 | the notifier built has the URL, timeout and flag of the decision; the decision's exceptions propagate |
| App.ResourceArgsAsWritten | src/main_app/core/application.py:82-87 | the call passes three keyword arguments |
| App.ResourceInitAlwaysFails | src/main_app/core/application.py:82-87 | as written, construction raises TypeError for every configuration |
| App.ResourceArgs | src/main_app/core/application.py:82-87 | the corrected call passes only the memory figure |
| App.ResourceInitSucceeds | src/main_app/core/resource_manager.py:51-60 | the corrected call succeeds for every integer figure; a missing figure or 0 gives 512 MB, any other figure is kept |
| App.EntryConfig | src/main_app/core/application.py:126-131 | a config exists exactly when the entry has a name and a path; `enabled` defaults to true and `config` to `{}` |
| App.EntryEvent | src/main_app/core/application.py:134-172 | no event for a disabled entry or a module without `initialize`; `module.loaded` exactly when the load succeeds and `initialize` returns; a raising `initialize` gives `module.error` with its message and phase "initialize"; a failed load gives phase "load" |
| App.EntriesEventsSpec | src/main_app/core/application.py:114-179 | the loop completes exactly when every entry has a name and a path; it publishes at most one lifecycle event per processed entry |
| App.LoadEntriesIsLoadMany | src/main_app/core/application.py:125-139 | skipping disabled entries and loading the rest affects the loader as `load_modules` over the processed configs does |
| App.EntriesStep | src/main_app/core/application.py:125-172 | one well-formed entry contributes its event and its load, then the rest follows |
| App.EntriesStop | src/main_app/core/application.py:126-131 | a malformed entry ends the loop with nothing more published or loaded |
| App.Application.constructor | src/main_app/core/application.py:33-68 | the components are in place and the application is not running |
| App.EventDeliveriesAppend | src/main_app/core/application.py:114-172 | publishing two runs of events delivers the first run's deliveries, then the second's |
| App.Application.Announce | src/main_app/core/application.py:150-172 | the event's data reaches each subscriber of its topic once, in order, with each callback's outcome recorded |
| App.Application.LoadEntry | src/main_app/core/application.py:134-172 | the event is `EntryEvent`, and it is delivered to every subscriber of its topic (nothing is delivered when there is no event); the loader changes by `Load` only for an enabled config |
| App.Application.LoadModules | src/main_app/core/application.py:114-179 | the events, whether the loop completed, and the loader's new state are those of the reference functions, and the bus delivers exactly those events, in order, to their topics' subscribers |
| App.Application.LoadStep | src/main_app/core/application.py:125-172 | one loop iteration: it stops exactly at a malformed entry, and then every event of the run is already published and every load already done; otherwise it appends the entry's event and that event's deliveries and loads the entry, keeping the rest of the run's events, deliveries and loads still to come |
| App.Application.Start | src/main_app/core/application.py:181-216 | notifications are enabled when a URL is stored; a failing resource reading ends `start` with nothing published or loaded and running unchanged; otherwise `app.started` is delivered first, then the module events, and running is set once loading completes |
| App.Application.Shutdown | src/main_app/core/application.py:231-251 | nothing happens and nothing is delivered when not running; otherwise the flag is cleared, the notifier disabled with its URL kept, `app.shutdown` delivered to each of its subscribers before the bus is cleared, the loader left in `ShutdownState`, and every topic emptied |
| ConfigLoader.FirstIndex | src/main_app/config/config_loader.py:34 | the first position of the character, if any |
| ConfigLoader.MatchEnd | src/main_app/config/config_loader.py:34 | `\$\{([^}]+)\}` matches at the start exactly up to the first closing brace, with a non-empty name |
| ConfigLoader.SubstituteText | src/main_app/config/config_loader.py:34-48 | literal text, in which no `$` is followed by `{`, passes through substitution unchanged; a trailing `$` is allowed when what follows does not open with `{` |
| ConfigLoader.SubstituteRef | src/main_app/config/config_loader.py:36-48 | a `${NAME}` at the front becomes the variable's value, or "" when unset |
| ConfigLoader.SubstituteTemplate | src/main_app/config/config_loader.py:34-48 | on every well-formed template (literal text may hold any `$` not followed by `{`, including one just before a reference, as in `US$${AMOUNT}`, or at the end) substitution equals the reference expansion; replacement text is never rescanned |
| ConfigLoader.SubstituteNoMatch | src/main_app/config/config_loader.py:34-48 | a string in which the pattern matches at no position comes back unchanged |
| ConfigLoader.SubstituteSingleRef | src/main_app/config/config_loader.py:36-46 | a lone reference is replaced by the value verbatim |
| ConfigLoader.SubstituteNoBrace | src/main_app/config/config_loader.py:34-48 | a string with no `}`, an unterminated `${X` for instance, is unchanged |
| ConfigLoader.SubstituteEmptyName | src/main_app/config/config_loader.py:34 | `${}` is not a match and stays as it is |
| ConfigLoader.SubstitutePreservesShape | src/main_app/config/config_loader.py:15-50 | the tree keeps its shape: dictionary keys, list lengths and non-string leaves |
| ConfigLoader.SubstituteNoOpenBrace | src/main_app/config/config_loader.py:34-48 | a string without `{` is unchanged |
| ConfigLoader.SubstituteIdentity | src/main_app/config/config_loader.py:15-50 | a tree in which no `${` can occur comes back unchanged |
| ConfigLoader.LoadYaml | src/main_app/config/config_loader.py:83-95 | an empty document becomes `{}`; any other is the document with `SubstituteEnvVars` applied, so every string has its `${NAME}` references replaced as `SubstituteTemplate` describes, and its shape is kept |
| ConfigLoader.LoadYamlFile | src/main_app/config/config_loader.py:53-97 | a missing file gives FileNotFound and an unreadable one InvalidYaml; a parsed one gives its document as `LoadYaml` loads it (`{}` for an empty file, otherwise substituted) |
| ConfigLoader.MergedLoggingSpec | src/main_app/config/config_loader.py:131-142 | only the `logging` key can change, and it takes the document's entry exactly when the document has one |
| ConfigLoader.MergedModulesSpec | src/main_app/config/config_loader.py:145-160 | only `modules` can change; it always exists after a merge; a dictionary section receives every top-level entry of a dictionary document, the document winning, and keeps every entry the document does not mention |
| ConfigLoader.MergeModules | src/main_app/config/config_loader.py:145-160 | the copy loop computes `MergedModules` |
| ConfigLoader.LoadAllConfigs | src/main_app/config/config_loader.py:100-164 | a missing directory or main file and invalid YAML are errors; otherwise the main document is merged with the optional files that load |
| ConfigLoader.OptionalFilesSkipped | src/main_app/config/config_loader.py:131-160 | when neither optional file loads, the result is the main document as loaded |
| Resources.NewManager | src/main_app/core/resource_manager.py:51-60 | `process_memory_mb or 512`: None and 0 both give 512, any other value is kept |
| Resources.Construct | src/main_app/core/resource_manager.py:51-60 | an unknown keyword is a TypeError; an absent or false-like figure gives the 512 MB default |
| Resources.Trunc | src/main_app/core/resource_manager.py:82 | `int()` truncates toward zero |
| Resources.GetSystemResources | src/main_app/core/resource_manager.py:62-105 | fails exactly when the logical CPU count is undetermined |
| Resources.Limits | src/main_app/core/resource_manager.py:62-105 | between one process and one per CPU, two threads per CPU, and the physical count falling back to the logical one |
| Resources.SufficientIff | src/main_app/core/resource_manager.py:125-150 | with an unknown CPU count the check raises (the `TypeError` of `get_system_resources`); otherwise enough memory exactly when available MB minus a quarter of the total covers `n` processes |
| Resources.SufficientMonotone | src/main_app/core/resource_manager.py:125-150 | a count that passes the check still passes with fewer processes |
| Resources.TruncFits | src/main_app/core/resource_manager.py:79-85 | the whole number of processes a budget holds is at least one and fits in it |
| Resources.RecommendedCountFits | src/main_app/core/resource_manager.py:79-85 | the clamped recommendation fits in the usable megabytes |
| Resources.RecommendedFits | src/main_app/core/resource_manager.py:62-150 | when memory allows one process, the recommended count passes the manager's own memory check |
| Resources.SufficientIsUsable | src/main_app/core/resource_manager.py:125-150 | with a known CPU count the memory check compares against the same usable budget the limits use |
| Platform.GetPlatformInfo | src/main_app/utils/platform_utils.py:50-73 | the readings are copied, and each flag is an exact comparison of the system name |
| Platform.PlatformFlags | src/main_app/utils/platform_utils.py:20-47 | at most one flag is set; Unix means Linux or Darwin; the display name follows the system name |
| Platform.CleanExitCodes | src/main_app/utils/platform_utils.py:76-103 | clean codes are exactly {0, 1} on Windows and {0, -15, 143} elsewhere |
| Platform.GetAvailableSignals | src/main_app/utils/platform_utils.py:106-138 | only the five known signal names can appear |
| Platform.AvailableSignals | src/main_app/utils/platform_utils.py:106-138 | SIGINT and SIGTERM always; SIGBREAK only on Windows, SIGHUP and SIGQUIT only elsewhere, each when the module has it |
| Platform.PlatformLimitsTable | src/main_app/utils/platform_utils.py:141-180 | the per-system table, with every other system getting Linux's; never more processes than threads |
| Pool.CompletionStatus | src/main_app/threading/process_pool.py:105-126 | the recorded status is inactive, and "completed" exactly when the task returned |
| Pool.ActiveCountAppend | src/main_app/threading/process_pool.py:177-181 | counting active records distributes over concatenation |
| Pool.SubmitAddsActive | src/main_app/threading/process_pool.py:84-91 | a submission raises the active count by one |
| Pool.CompletionLowersActive | src/main_app/threading/process_pool.py:105-126 | a completion lowers the active count by one exactly when the task was still active |
| Pool.StatusesOf | src/main_app/threading/process_pool.py:177-181 | the statuses of the records, position by position |
| Pool.StatusesAppend | src/main_app/threading/process_pool.py:91 | appending a record appends its status |
| Pool.ChooseMaxWorkers | src/main_app/threading/process_pool.py:53-58 | an explicit value wins, even 0; else the manager's recommendation; else the CPU count |
| Pool.ProcessInfo.constructor | src/main_app/threading/process_pool.py:85-90 | no pid, the given name and start time, status pending |
| Pool.ProcessPool.constructor | src/main_app/threading/process_pool.py:35-61 | the worker limit of `ChooseMaxWorkers`, no executor and no records |
| Pool.ProcessPool.Submit | src/main_app/threading/process_pool.py:62-104 | the executor is started if needed; a limit below one fails before anything is recorded; otherwise one pending record is appended, and one new future is kept exactly when the executor accepts the task; a refused task leaves its pending record without a future |
| Pool.ProcessPool.Record | src/main_app/threading/process_pool.py:84-91 | a fresh pending record is appended and nothing else changes |
| Pool.ProcessPool.AddFuture | src/main_app/threading/process_pool.py:93-95 | a new future, distinct from the kept ones, is appended and the records are unchanged |
| Pool.ProcessPool.OnTaskComplete | src/main_app/threading/process_pool.py:105-126 | the status becomes "completed" when the task returned and "failed" otherwise |
| Pool.ProcessPool.CompleteTask | src/main_app/threading/process_pool.py:97-126 | the done-callback of the `i`-th task changes only that record's status, to the completion status, so the active count drops by one exactly when that task was still active; records stay distinct |
| Pool.ProcessPool.Shutdown | src/main_app/threading/process_pool.py:154-169 | no executor, no records, no futures, and so no active task |
| Pool.ProcessPool.GetActiveCount | src/main_app/threading/process_pool.py:170-182 | the number of pending or running records |
| Pool.ProcessPool.GetProcessInfo | src/main_app/threading/process_pool.py:183-191 | the records in order |
| Pool.ProcessPool.HasCapacity | src/main_app/threading/process_pool.py:192-200 | true exactly when the active count is below the worker limit |
| Testing.ExistingPaths | src/main_app/testing/test_runner.py:60-78 | at most one path per entry |
| Testing.ExistingPathsMembers | src/main_app/testing/test_runner.py:60-78 | a path is discovered exactly when some string entry resolves to it and it exists |
| Testing.DiscoveredSpec | src/main_app/testing/test_runner.py:11-87 | no `get_tests`, a raising or non-list result, or no `__file__` gives nothing; every path returned exists |
| Testing.DiscoverModuleTests | src/main_app/testing/test_runner.py:11-87 | the loop computes the discovered paths |
| Testing.ModulePathsExist | src/main_app/testing/test_runner.py:131-150 | every path contributed by the modules exists |
| Testing.AggregateSpec | src/main_app/testing/test_runner.py:113-153 | every aggregated path exists, and the main tests directory comes first when it exists |
| Testing.ModuleTests | src/main_app/testing/test_runner.py:132-143 | a name without a module contributes nothing; otherwise its discovered paths |
| Testing.CollectTestPaths | src/main_app/testing/test_runner.py:113-153 | the collected paths are the aggregate: the main directory first, then each module's paths in loader order |
| Testing.RunAllTests | src/main_app/testing/test_runner.py:90-206 | with no paths: 0 and no pytest run; otherwise pytest gets the flags and the paths, and the exit code is pytest's, or 2 when pytest is missing or raises |
| Webhook.BuildPayload | src/main_app/error_handling/webhook_notifier.py:95-120 | exactly the five report fields; a missing or empty context becomes `{}` |
| Webhook.WebhookNotifier.constructor | src/main_app/error_handling/webhook_notifier.py:21-42 | enabled exactly when enabling was asked for and a URL is given |
| Webhook.WebhookNotifier.SetWebhookUrl | src/main_app/error_handling/webhook_notifier.py:152-161 | the URL is stored, and notifications are on exactly when it is not None |
| Webhook.WebhookNotifier.Disable | src/main_app/error_handling/webhook_notifier.py:163-166 | notifications are off and the URL is kept |
| Webhook.WebhookNotifier.Enable | src/main_app/error_handling/webhook_notifier.py:168-174 | on when a non-empty URL is stored, otherwise nothing changes |
| Webhook.WebhookNotifier.SendWebhook | src/main_app/error_handling/webhook_notifier.py:122-150 | an unset or empty URL gives False without a request; otherwise the payload is posted, an HTTP error gives False, and other failures propagate |
| Webhook.WebhookNotifier.NotifyError | src/main_app/error_handling/webhook_notifier.py:44-70 | disabled means False with no payload built; otherwise the built payload is sent, and True only when it was delivered |

## Left out

- I/O and the outside world. File reads, YAML parsing, `psutil`, the
  `platform`/`signal`/`multiprocessing` modules, HTTP and pytest are
  parameters or oracles. Logging and console output are not modelled.
- Import machinery: `spec_from_file_location`, `module_from_spec` and
  `exec_module` are the `FileSystem` oracle. A module's code cannot touch
  the loader or the bus.
- `sys.modules`: each loader holds its own copy, and it starts empty. In
  Python it is one table shared by the whole process and already holds the
  standard modules. A plugin named like one of those would replace it on
  load and remove it on unload; the model has no such entries to lose.
- Paths are strings compared as written. The model does no normalisation or
  symbolic-link resolution, so `Path(a) == Path(b)` is string equality.
  `Path.resolve()` and `Path.exists()` are oracles in the test runner.
- Watchdog: the observer is a three-state flag and events arrive by calling
  `OnModified`. Its thread, scheduling and recursive watching are not
  modelled. Starting or scheduling the observer never fails in the model.
  In the source, `_watch_path` runs inside `load_module`'s `try`, after
  `_modules`, `_module_configs` and `sys.modules` are set
  (module_loader.py:120-127). So if `start()` or `schedule()` raises (an
  inotify watch limit, for example), `load_module` returns False with the
  module already registered. Loader.LoadSuccess's "True exactly when the
  code runs" holds only under this abstraction.
- Concurrency: bus callbacks that subscribe during a publish, worker
  processes, and the asynchronous HTTP call. These have no counterpart in
  the model.
- Bus.EventBus.Publish: callbacks are identities and whatever they do is
  not modelled. Only their raising is modelled, which the log records.
  Every callback is assumed to have a `__name__`, as the bound methods the
  modules subscribe do. The debug and error messages at event_bus.py:45,
  58 and 78 read `callback.__name__`, so for a callable without one (a
  `functools.partial`, a callable instance) `subscribe` and `unsubscribe`
  raise AttributeError after changing the list, and if such a callback
  raises, the error handler itself raises out of `publish` and the later
  subscribers are not called. The model does not capture these failures.
- App.Application.Start:
  - Signal handlers, the resource reading printed at start, the `_run`
    loop, `__init__`'s `.env`, YAML and logging set-up, and
    `_setup_logging` are left out.
  - The resources reading in `app.started` is a parameter: either the
    reading or the error `get_system_resources()` raises.
  - The contract does not model the `__init__` crash described under
    Findings.
- App.Application.LoadModules:
  - Entries that are not mappings, and a `name` or `path` that is not a
    string, are not modelled.
  - The `except` branch at application.py:173-179 is unreachable, because
    `load_module` catches every exception itself, so it has no counterpart.
  - A module's `initialize` cannot subscribe to the bus or publish on it.
- App.WebhookSetup: `str.strip()` covers ASCII whitespace, the ASCII
  separators, NEL and NBSP. Other Unicode spaces are not modelled.
- Configuration merging:
  - Dictionaries are maps, so key insertion order is not modelled.
  - An open error on `main.yaml` is folded into InvalidYaml.
- Resources.Construct: a truthy `process_memory_mb` that is not an integer
  (a float, a string) is outside the model and gives an error. Python would
  store it.
- Resources: arithmetic is on exact reals, without floating-point
  rounding. `get_max_processes`, `get_max_threads` and the usage-percent
  readings are thin wrappers over `psutil` and are left out.
- Pool:
  - Execution of tasks by `ProcessPoolExecutor` is not modelled.
  - `map`, `wait_for_capacity` (a sleep loop on the clock), the
    `max_workers` property and the context-manager methods are left out.
  - A future is a number.
  - No code sets the "running" status, so it never occurs.
  - The Windows limit of 61 workers on `ProcessPoolExecutor` is not
    modelled.
- Pool.ProcessPool.GetProcessInfo: this returns the records, and the
  shallow copy of the list is not distinguished from the list.
- Webhook: `notify_error_sync`, the event-loop wrapper around
  `notify_error`, is left out. The timestamp is a parameter.
- Testing.DiscoverModuleTests: of the exceptions, only `get_tests()`
  raising is modelled. `Path.resolve()` raising is not.
- Platform: `PlatformInfo` fields other than the flags are copied, and their
  content is not interpreted.

## Findings

| source | as written | input that shows it | evidently intended | confidence | as-written member | corrected member |
|---|---|---|---|---|---|---|
| src/main_app/core/application.py:83-87 | `ResourceManager(...)` is called with `process_memory_mb`, `reserved_ram_percent` and `threads_per_core`, but `ResourceManager.__init__` (resource_manager.py:51) accepts only `process_memory_mb` | any configuration, including an empty `resources` section: the call raises TypeError for the unexpected keyword `reserved_ram_percent`, so `Application()` cannot be constructed | pass only `process_memory_mb`; the other two figures are the constants at resource_manager.py:45-49 | not executed | App.ResourceInitAlwaysFails | App.ResourceInitSucceeds |
