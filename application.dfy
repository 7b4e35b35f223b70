/** `Application`: the orchestration of the loader, the bus and the webhook
    notifier — which notifier the configuration asks for, how the configured
    module entries are loaded and announced on the bus, and what shutdown
    does to each component.  The three components are injected objects. */
module App {
  import opened Data
  import Loader
  import Bus
  import Webhook
  import Resources

  // ---------------------------------------------------------------------
  // The webhook decision of `_initialize_components`.

  /** The characters Python's `str.strip()` removes, as far as this model
      goes: ASCII whitespace, the ASCII separators, NEL and NBSP. */
  predicate IsSpace(c: char) {
    c in {' ', '\t', '\n', '\r', '\U{000B}', '\U{000C}', '\U{001C}', '\U{001D}', '\U{001E}', '\U{001F}',
          '\U{0085}', '\U{00A0}'}
  }

  function LStrip(s: string): string {
    if s != [] && IsSpace(s[0]) then LStrip(s[1..]) else s
  }

  function RStrip(s: string): string {
    if s != [] && IsSpace(s[|s| - 1]) then RStrip(s[..|s| - 1]) else s
  }

  /** `str.strip()`. */
  function Strip(s: string): string {
    RStrip(LStrip(s))
  }

  lemma {:induction false} LStripEmpty(s: string)
    ensures LStrip(s) == [] <==> forall i :: 0 <= i < |s| ==> IsSpace(s[i])
  {
    if s != [] && IsSpace(s[0]) {
      LStripEmpty(s[1..]);
      assert forall i :: 1 <= i < |s| ==> s[i] == s[1..][i - 1];
    }
  }

  /** A string strips to nothing exactly when all its characters are spaces. */
  lemma StripBlank(s: string)
    ensures Strip(s) == [] <==> forall i :: 0 <= i < |s| ==> IsSpace(s[i])
  {
    LStripEmpty(s);
    RStripEmptyAfterLStrip(s);
  }

  lemma RStripEmptyAfterLStrip(s: string)
    ensures RStrip(LStrip(s)) == [] <==> LStrip(s) == []
  {
    LStripHead(s);
    var t := LStrip(s);
    if t != [] {
      RStripKeepsHead(t);
    }
  }

  /** What `LStrip` leaves starts with a character that is not a space. */
  lemma {:induction false} LStripHead(s: string)
    ensures LStrip(s) != [] ==> !IsSpace(LStrip(s)[0])
  {
    if s != [] && IsSpace(s[0]) {
      LStripHead(s[1..]);
    }
  }

  /** `RStrip` of a string whose first character is not a space keeps it. */
  lemma {:induction false} RStripKeepsHead(t: string)
    requires t != [] && !IsSpace(t[0])
    ensures RStrip(t) != []
  {
    if IsSpace(t[|t| - 1]) {
      assert |t| > 1;
      RStripKeepsHead(t[..|t| - 1]);
    }
  }

  /** The arguments the application passes to `WebhookNotifier`. */
  datatype NotifierArgs = NotifierArgs(url: Option<string>, timeout: Value, enabled: bool)

  /** `x.get(key, {})` where `x` must be a dictionary: anything else raises
      AttributeError. */
  function GetSection(x: Value, key: string): Result<Value, string> {
    if x.Dict? then Ok(Get(x.entries, key, Dict(map[]))) else Err("AttributeError")
  }

  /** The webhook decision of `_initialize_components`: a real notifier only
      when the `enabled` flag is truthy and the URL is a string that is not
      blank; otherwise a disabled notifier with no URL and the default
      timeout.  A non-dictionary section, or a truthy non-string URL under a
      truthy flag, raises. */
  function WebhookSetup(config: map<string, Value>): (r: Result<NotifierArgs, string>)
    ensures r.Ok? && r.value.enabled ==> r.value.url.Some? && Strip(r.value.url.value) != ""
    ensures r.Ok? && !r.value.enabled ==> r.value == NotifierArgs(None, Real(10.0), false)
  {
    match GetSection(Dict(config), "error_handling")
    case Err(e) => Err(e)
    case Ok(handling) =>
      match GetSection(handling, "webhook")
      case Err(e) => Err(e)
      case Ok(webhook) =>
        if !webhook.Dict? then Err("AttributeError")
        else
          var url := Get(webhook.entries, "url", Str(""));
          var timeout := Get(webhook.entries, "timeout_seconds", Real(10.0));
          var enabled := Get(webhook.entries, "enabled", Bool(false));
          if !Truthy(enabled) || !Truthy(url) then Ok(NotifierArgs(None, Real(10.0), false))
          else if !url.Str? then Err("AttributeError")
          else if Strip(url.s) == "" then Ok(NotifierArgs(None, Real(10.0), false))
          else Ok(NotifierArgs(Some(url.s), timeout, true))
  }

  /** A well-formed webhook section gives an enabled notifier exactly when
      its flag is truthy and its URL has a character that is not a space. */
  lemma WebhookEnabledIff(config: map<string, Value>, webhook: map<string, Value>)
    requires "error_handling" in config && config["error_handling"].Dict?
    requires Get(config["error_handling"].entries, "webhook", Dict(map[])) == Dict(webhook)
    requires "url" in webhook && webhook["url"].Str?
    ensures WebhookSetup(config).Ok?
    ensures WebhookSetup(config).value.enabled <==>
              Truthy(Get(webhook, "enabled", Bool(false))) &&
              exists i :: 0 <= i < |webhook["url"].s| && !IsSpace(webhook["url"].s[i])
    ensures WebhookSetup(config).value.enabled ==> WebhookSetup(config).value.url == Some(webhook["url"].s)
  {
    StripBlank(webhook["url"].s);
  }

  /** With no `error_handling` section at all, the notifier is disabled. */
  lemma NoWebhookSection(config: map<string, Value>)
    requires "error_handling" !in config
    ensures WebhookSetup(config) == Ok(NotifierArgs(None, Real(10.0), false))
  {
  }

  /** `_initialize_components`, webhook part: build the notifier it asks for. */
  method InitializeNotifier(config: map<string, Value>) returns (r: Result<Webhook.WebhookNotifier, string>)
    ensures WebhookSetup(config).Err? ==> r.Err?
    ensures WebhookSetup(config).Ok? ==>
              r.Ok? && fresh(r.value) && r.value.Valid() &&
              r.value.webhookUrl == WebhookSetup(config).value.url &&
              r.value.timeout == WebhookSetup(config).value.timeout &&
              r.value.enabled == WebhookSetup(config).value.enabled
  {
    var setup := WebhookSetup(config);
    if setup.Err? {
      return Err(setup.error);
    }
    var args := setup.value;
    var n := new Webhook.WebhookNotifier(args.url, args.timeout, args.enabled);
    r := Ok(n);
  }

  // ---------------------------------------------------------------------
  // The resource manager of `_initialize_components`.

  /** The keyword arguments `_initialize_components` passes to
      `ResourceManager`, as written: three settings with their defaults. */
  function ResourceArgsAsWritten(resources: map<string, Value>): (kwargs: map<string, Value>)
    ensures kwargs.Keys == {"process_memory_mb", "reserved_ram_percent", "threads_per_core"}
  {
    map["process_memory_mb" := Get(resources, "process_memory_mb", Int(512)),
        "reserved_ram_percent" := Get(resources, "reserved_ram_percent", Real(0.25)),
        "threads_per_core" := Get(resources, "threads_per_core", Int(2))]
  }

  /** As written, constructing the resource manager raises TypeError for every
      configuration, so the application cannot be initialised. */
  lemma ResourceInitAlwaysFails(resources: map<string, Value>)
    ensures Resources.Construct(ResourceArgsAsWritten(resources)).Err?
  {
    assert "reserved_ram_percent" in ResourceArgsAsWritten(resources).Keys;
  }

  /** The call the constructor accepts: only the memory figure. */
  function ResourceArgs(resources: map<string, Value>): (kwargs: map<string, Value>)
    ensures kwargs.Keys == Resources.InitParameters
  {
    map["process_memory_mb" := Get(resources, "process_memory_mb", Int(512))]
  }

  /** With only the memory figure passed, construction succeeds for every
      integer figure: a missing one or 0 gives the 512 MB default, any other
      value is kept. */
  lemma ResourceInitSucceeds(resources: map<string, Value>)
    requires "process_memory_mb" in resources ==> resources["process_memory_mb"].Int?
    ensures Resources.Construct(ResourceArgs(resources)).Ok?
    ensures var m := Resources.Construct(ResourceArgs(resources)).value;
      && ("process_memory_mb" !in resources ==> m.processMemoryMb == 512)
      && ("process_memory_mb" in resources && resources["process_memory_mb"].i == 0 ==> m.processMemoryMb == 512)
      && ("process_memory_mb" in resources && resources["process_memory_mb"].i != 0 ==>
            m.processMemoryMb == resources["process_memory_mb"].i)
  {
  }

  // ---------------------------------------------------------------------
  // `_load_modules`.

  /** One mapping of the `modules` list, as far as the loop reads it; a
      missing key is None. */
  datatype ModuleEntry = ModuleEntry(name: Option<string>, path: Option<string>,
                                     enabled: Option<Value>, config: Option<Value>)

  /** A bus publication: topic and data. */
  datatype Event = Event(topic: string, data: Value)

  /** The `ModuleConfig` built from an entry: `name` and `path` are required
      (a KeyError otherwise), `enabled` defaults to True, `config` to {}. */
  function EntryConfig(e: ModuleEntry): (r: Option<Loader.ModuleConfig>)
    ensures r.Some? <==> e.name.Some? && e.path.Some?
    ensures r.Some? ==> r.value.name == e.name.value && r.value.path == e.path.value
    ensures r.Some? && e.enabled.None? ==> r.value.enabled
    ensures r.Some? && e.config.None? ==> r.value.config == Some(Dict(map[]))
  {
    if e.name.None? || e.path.None? then None
    else Some(Loader.ModuleConfig(e.name.value, e.path.value, Truthy(e.enabled.GetOr(Bool(true))),
                                  Some(e.config.GetOr(Dict(map[])))))
  }

  function ErrorEvent(name: string, error: string, phase: string): Event {
    Event("module.error", Dict(map["name" := Str(name), "error" := Str(error), "phase" := Str(phase)]))
  }

  function LoadedEvent(c: Loader.ModuleConfig): Event {
    Event("module.loaded", Dict(map["name" := Str(c.name), "path" := Str(c.path), "config" := c.config.GetOr(Null)]))
  }

  /** The event published for one well-formed entry, if any. */
  function EntryEvent(c: Loader.ModuleConfig, fs: Loader.FileSystem): (r: Option<Event>)
    ensures r.None? <==> !c.enabled || (Loader.LoadSucceeds(c, fs) && fs(c.path).hooks.initialize.Absent?)
    ensures r.Some? && r.value.topic == "module.loaded" <==>
              Loader.LoadSucceeds(c, fs) && fs(c.path).hooks.initialize.Returns?
    ensures r.Some? ==> r.value.topic in {"module.loaded", "module.error"}
    ensures c.enabled && !Loader.LoadSucceeds(c, fs) ==> r == Some(ErrorEvent(c.name, "Module load failed", "load"))
    ensures c.enabled && Loader.LoadSucceeds(c, fs) && fs(c.path).hooks.initialize.Returns? ==> r == Some(LoadedEvent(c))
    ensures c.enabled && Loader.LoadSucceeds(c, fs) && fs(c.path).hooks.initialize.Raises? ==>
              r == Some(ErrorEvent(c.name, fs(c.path).hooks.initialize.message, "initialize"))
  {
    if !c.enabled then None
    else if !Loader.LoadSucceeds(c, fs) then Some(ErrorEvent(c.name, "Module load failed", "load"))
    else match fs(c.path).hooks.initialize
      case Absent => None
      case Returns => Some(LoadedEvent(c))
      case Raises(message) => Some(ErrorEvent(c.name, message, "initialize"))
  }

  function AsSeq(e: Option<Event>): seq<Event> {
    if e.Some? then [e.value] else []
  }

  /** The events `_load_modules` publishes, in order, and whether it ran to
      the end: an entry without a name or a path raises out of the loop. */
  function EntriesEvents(entries: seq<ModuleEntry>, fs: Loader.FileSystem): (seq<Event>, bool)
    decreases |entries|
  {
    if entries == [] then ([], true)
    else match EntryConfig(entries[0])
      case None => ([], false)
      case Some(c) =>
        var (rest, done) := EntriesEvents(entries[1..], fs);
        (AsSeq(EntryEvent(c, fs)) + rest, done)
  }

  /** The loader state after `_load_modules`: disabled entries are skipped,
      the others loaded, until the first malformed entry. */
  function LoadEntries(s: Loader.LoaderState, watchReload: bool, entries: seq<ModuleEntry>,
                       fs: Loader.FileSystem): Loader.LoaderState
    decreases |entries|
  {
    if entries == [] then s
    else match EntryConfig(entries[0])
      case None => s
      case Some(c) =>
        var s1 := if c.enabled then Loader.Load(s, watchReload, c, fs).0 else s;
        LoadEntries(s1, watchReload, entries[1..], fs)
  }

  /** One step of `_load_modules` on a well-formed entry. */
  lemma EntriesStep(entries: seq<ModuleEntry>, i: nat, s: Loader.LoaderState, watchReload: bool, fs: Loader.FileSystem)
    requires i < |entries| && EntryConfig(entries[i]).Some?
    ensures var c := EntryConfig(entries[i]).value;
      && EntriesEvents(entries[i..], fs) ==
           (AsSeq(EntryEvent(c, fs)) + EntriesEvents(entries[i + 1..], fs).0, EntriesEvents(entries[i + 1..], fs).1)
      && LoadEntries(s, watchReload, entries[i..], fs) ==
           LoadEntries(if c.enabled then Loader.Load(s, watchReload, c, fs).0 else s, watchReload, entries[i + 1..], fs)
  {
    assert entries[i..][0] == entries[i] && entries[i..][1..] == entries[i + 1..];
  }

  /** `_load_modules` stops at a malformed entry. */
  lemma EntriesStop(entries: seq<ModuleEntry>, i: nat, s: Loader.LoaderState, watchReload: bool, fs: Loader.FileSystem)
    requires i < |entries| && EntryConfig(entries[i]).None?
    ensures EntriesEvents(entries[i..], fs) == ([], false)
    ensures LoadEntries(s, watchReload, entries[i..], fs) == s
  {
    assert entries[i..][0] == entries[i];
  }

  /** The configs the loop gets to: those before the first malformed entry. */
  function ProcessedConfigs(entries: seq<ModuleEntry>): (r: seq<Loader.ModuleConfig>)
    ensures |r| <= |entries|
    decreases |entries|
  {
    if entries == [] then []
    else match EntryConfig(entries[0])
      case None => []
      case Some(c) => [c] + ProcessedConfigs(entries[1..])
  }

  /** The loop runs to the end exactly when every entry is well-formed; it
      publishes at most one event per entry, each a lifecycle event, and no
      more events than there are processed entries. */
  lemma {:induction false} EntriesEventsSpec(entries: seq<ModuleEntry>, fs: Loader.FileSystem)
    ensures EntriesEvents(entries, fs).1 <==> forall i :: 0 <= i < |entries| ==> EntryConfig(entries[i]).Some?
    ensures EntriesEvents(entries, fs).1 ==> |ProcessedConfigs(entries)| == |entries|
    ensures |EntriesEvents(entries, fs).0| <= |ProcessedConfigs(entries)|
    ensures forall ev :: ev in EntriesEvents(entries, fs).0 ==> ev.topic in {"module.loaded", "module.error"}
    decreases |entries|
  {
    if entries != [] && EntryConfig(entries[0]).Some? {
      EntriesEventsSpec(entries[1..], fs);
      assert forall i :: 1 <= i < |entries| ==> entries[i] == entries[1..][i - 1];
    }
  }

  /** Skipping disabled entries and loading the rest has the same effect on
      the loader as `load_modules` over every processed config, since
      `load_module` refuses a disabled config without changing anything. */
  lemma {:induction false} LoadEntriesIsLoadMany(s: Loader.LoaderState, watchReload: bool, entries: seq<ModuleEntry>,
                                                 fs: Loader.FileSystem, results: map<string, bool>)
    ensures LoadEntries(s, watchReload, entries, fs) ==
            Loader.LoadMany(s, watchReload, ProcessedConfigs(entries), fs, results).0
    decreases |entries|
  {
    if entries != [] && EntryConfig(entries[0]).Some? {
      var c := EntryConfig(entries[0]).value;
      var cs := ProcessedConfigs(entries);
      assert cs[0] == c && cs[1..] == ProcessedConfigs(entries[1..]);
      var (s1, ok) := Loader.Load(s, watchReload, c, fs);
      if !c.enabled {
        Loader.LoadRefused(s, watchReload, c, fs);
      }
      LoadEntriesIsLoadMany(s1, watchReload, entries[1..], fs, results[c.name := ok]);
    }
  }

  /** Part way through the loop of `_load_modules`, before entry `i`: the
      events so far followed by those of the remaining entries are all of the
      loop's events, and loading the remaining entries from `s` reaches
      `target`. */
  ghost predicate Remaining(entries: seq<ModuleEntry>, i: nat, events: seq<Event>, s: Loader.LoaderState,
                            watchReload: bool, fs: Loader.FileSystem,
                            allEvents: seq<Event>, allDone: bool, target: Loader.LoaderState)
  {
    && i <= |entries|
    && events + EntriesEvents(entries[i..], fs).0 == allEvents
    && EntriesEvents(entries[i..], fs).1 == allDone
    && LoadEntries(s, watchReload, entries[i..], fs) == target
  }

  /** The state of the loop of `_load_modules` before entry `i`, or after
      it stopped at entry `i`: `log` holds the deliveries of `events`; a
      running loop has the remaining entries still to contribute, and a
      stopped one has published every event and done every load. */
  ghost predicate Progress(entries: seq<ModuleEntry>, i: nat, stop: bool, events: seq<Event>, log: seq<Bus.Delivery>,
                           s: Loader.LoaderState, watchReload: bool, table: map<string, seq<Bus.Callback>>,
                           fs: Loader.FileSystem, raises: (Bus.Callback, Value) -> bool,
                           allEvents: seq<Event>, allDone: bool, target: Loader.LoaderState)
  {
    && i <= |entries|
    && log == EventDeliveries(table, events, raises)
    && (!stop ==> Remaining(entries, i, events, s, watchReload, fs, allEvents, allDone, target))
    && (stop ==> events == allEvents && !allDone && s == target)
  }

  /** What publishing `events` in turn on a bus whose subscriber table is
      `table` delivers: each event to the subscribers of its topic, in
      order.  No event changes the table. */
  function EventDeliveries(table: map<string, seq<Bus.Callback>>, events: seq<Event>,
                           raises: (Bus.Callback, Value) -> bool): seq<Bus.Delivery>
  {
    if events == [] then []
    else Bus.Deliver(Bus.ListOf(table, events[0].topic), events[0].data, raises)
         + EventDeliveries(table, events[1..], raises)
  }

  /** Publishing two runs of events delivers the deliveries of the first run,
      then those of the second. */
  lemma {:induction false} EventDeliveriesAppend(table: map<string, seq<Bus.Callback>>, a: seq<Event>, b: seq<Event>,
                                                 raises: (Bus.Callback, Value) -> bool)
    ensures EventDeliveries(table, a + b, raises) == EventDeliveries(table, a, raises) + EventDeliveries(table, b, raises)
    decreases |a|
  {
    if a == [] {
      assert a + b == b;
      ConcatEmpty(EventDeliveries(table, b, raises));
    } else {
      assert (a + b)[0] == a[0] && (a + b)[1..] == a[1..] + b;
      EventDeliveriesAppend(table, a[1..], b, raises);
      ConcatAssoc(Bus.Deliver(Bus.ListOf(table, a[0].topic), a[0].data, raises),
                  EventDeliveries(table, a[1..], raises), EventDeliveries(table, b, raises));
    }
  }

  // ---------------------------------------------------------------------
  // The application object.

  class Application {
    var running: bool
    const bus: Bus.EventBus
    const loader: Loader.ModuleLoader
    const notifier: Webhook.WebhookNotifier

    ghost predicate Valid()
      reads this, loader, notifier
    {
      loader.Valid() && notifier.Valid()
    }

    /** The end of `__init__`: the components are in place and the
        application is not running. */
    constructor (bus: Bus.EventBus, loader: Loader.ModuleLoader, notifier: Webhook.WebhookNotifier)
      requires loader.Valid() && notifier.Valid()
      ensures Valid() && !running
      ensures this.bus == bus && this.loader == loader && this.notifier == notifier
    {
      this.bus := bus;
      this.loader := loader;
      this.notifier := notifier;
      running := false;
    }

    /** Publish the event on the bus: its data reaches each subscriber of
        its topic once, in order; the outcome of each callback is `raises`. */
    method Announce(ev: Event, raises: (Bus.Callback, Value) -> bool) returns (log: seq<Bus.Delivery>)
      ensures |log| == |bus.Subscribers(ev.topic)|
      ensures forall i :: 0 <= i < |log| ==>
                log[i] == Bus.Delivery(bus.Subscribers(ev.topic)[i], ev.data, raises(bus.Subscribers(ev.topic)[i], ev.data))
      ensures log == EventDeliveries(bus.subscribers, [ev], raises)
    {
      log := bus.Publish(ev.topic, ev.data, raises);
      assert [ev][1..] == [];
      ConcatEmpty(log);
    }

    /** The body of the `_load_modules` loop for one config: skip it when
        disabled, else load it and publish the lifecycle event. */
    method LoadEntry(config: Loader.ModuleConfig, fs: Loader.FileSystem, raises: (Bus.Callback, Value) -> bool)
      returns (ev: Option<Event>, log: seq<Bus.Delivery>)
      requires loader.Valid()
      modifies loader
      ensures loader.Valid()
      ensures ev == EntryEvent(config, fs)
      ensures ev.None? ==> log == []
      ensures ev.Some? ==> log == Bus.Deliver(bus.Subscribers(ev.value.topic), ev.value.data, raises)
      ensures log == EventDeliveries(bus.subscribers, AsSeq(ev), raises)
      ensures loader.View() == if config.enabled then Loader.Load(old(loader.View()), loader.watchReload, config, fs).0
                               else old(loader.View())
    {
      log := [];
      if !config.enabled {
        return None, [];
      }
      Loader.LoadSuccess(loader.View(), loader.watchReload, config, fs);
      var ok := loader.LoadModule(config, fs);
      if ok {
        var m := loader.GetModule(config.name);
        match m.value.hooks.initialize
        case Absent =>
          // no `initialize()`: a warning only
          ev := None;
        case Returns =>
          ev := Some(LoadedEvent(config));
        case Raises(message) =>
          ev := Some(ErrorEvent(config.name, message, "initialize"));
      } else {
        ev := Some(ErrorEvent(config.name, "Module load failed", "load"));
      }
      if ev.Some? {
        log := Announce(ev.value, raises);
      }
    }

    /** `_load_modules`: every entry in turn, until a malformed one ends the
        loop with its exception (`completed` false). */
    method LoadModules(entries: seq<ModuleEntry>, fs: Loader.FileSystem, raises: (Bus.Callback, Value) -> bool)
      returns (events: seq<Event>, completed: bool, log: seq<Bus.Delivery>)
      requires Valid()
      modifies loader
      ensures Valid()
      ensures (events, completed) == EntriesEvents(entries, fs)
      ensures log == EventDeliveries(bus.subscribers, events, raises)
      ensures loader.View() == LoadEntries(old(loader.View()), loader.watchReload, entries, fs)
    {
      ghost var (allEvents, allDone) := EntriesEvents(entries, fs);
      ghost var target := LoadEntries(loader.View(), loader.watchReload, entries, fs);
      events, log := [], [];
      var i := 0;
      assert entries[i..] == entries;
      ConcatEmpty(allEvents);
      while i < |entries|
        invariant loader.Valid()
        invariant Progress(entries, i, false, events, log, loader.View(), loader.watchReload, bus.subscribers, fs, raises,
                           allEvents, allDone, target)
      {
        var stop;
        events, stop, log := LoadStep(entries, i, events, log, fs, raises, allEvents, allDone, target);
        if stop {
          // `module_data["name"]` or `module_data["path"]` raised KeyError
          return events, false, log;
        }
        i := i + 1;
      }
      assert entries[i..] == [];
      ConcatEmpty(events);
      completed := true;
    }

    /** One iteration of the loop of `_load_modules`: a malformed entry stops
        the loop, with every event published and every load done; otherwise
        the entry's event, if any, is published and appended, the entry is
        loaded, and the remaining entries account for the rest. */
    method LoadStep(entries: seq<ModuleEntry>, i: nat, events: seq<Event>, log: seq<Bus.Delivery>,
                    fs: Loader.FileSystem, raises: (Bus.Callback, Value) -> bool,
                    ghost allEvents: seq<Event>, ghost allDone: bool, ghost target: Loader.LoaderState)
      returns (events': seq<Event>, stop: bool, log': seq<Bus.Delivery>)
      requires loader.Valid() && i < |entries|
      requires Progress(entries, i, false, events, log, loader.View(), loader.watchReload, bus.subscribers, fs, raises,
                        allEvents, allDone, target)
      modifies loader
      ensures loader.Valid()
      ensures stop <==> EntryConfig(entries[i]).None?
      ensures Progress(entries, if stop then i else i + 1, stop, events', log', loader.View(), loader.watchReload,
                       bus.subscribers, fs, raises, allEvents, allDone, target)
    {
      var entry := EntryConfig(entries[i]);
      if entry.None? {
        EntriesStop(entries, i, loader.View(), loader.watchReload, fs);
        ConcatEmpty(events);
        return events, true, log;
      }
      EntriesStep(entries, i, loader.View(), loader.watchReload, fs);
      var ev, evLog := LoadEntry(entry.value, fs, raises);
      ghost var rest := EntriesEvents(entries[i + 1..], fs).0;
      events' := events + AsSeq(ev);
      log' := log + evLog;
      EventDeliveriesAppend(bus.subscribers, events, AsSeq(ev), raises);
      ConcatAssoc(events, AsSeq(ev), rest);
      stop := false;
    }

    /** The state changes of `start`: enable notifications when a URL is
        stored, read the system resources, publish `app.started` with them,
        load the configured modules when there are any, then mark the
        application running, unless loading raised.  `resources` is the
        result of `get_system_resources()`, which raises TypeError when the
        logical CPU count is unknown (Resources.GetSystemResources); `start`
        then ends there, after the notifier step, with nothing published or
        loaded. */
    method Start(entries: seq<ModuleEntry>, fs: Loader.FileSystem, raises: (Bus.Callback, Value) -> bool,
                 resources: Result<Value, string>)
      returns (events: seq<Event>, completed: bool, log: seq<Bus.Delivery>)
      requires Valid()
      modifies this, loader, notifier
      ensures Valid()
      ensures notifier.webhookUrl == old(notifier.webhookUrl)
      ensures Webhook.UrlSet(notifier.webhookUrl) ==> notifier.enabled
      ensures !Webhook.UrlSet(notifier.webhookUrl) ==> notifier.enabled == old(notifier.enabled)
      ensures resources.Err? ==>
                events == [] && log == [] && !completed && running == old(running) && loader.View() == old(loader.View())
      ensures resources.Ok? ==>
                events == [Event("app.started", Dict(map["resources" := resources.value]))] + EntriesEvents(entries, fs).0
      ensures resources.Ok? ==> completed == EntriesEvents(entries, fs).1
      ensures resources.Ok? ==> loader.View() == LoadEntries(old(loader.View()), loader.watchReload, entries, fs)
      ensures log == EventDeliveries(bus.subscribers, events, raises)
      ensures completed ==> running
      ensures !completed ==> running == old(running)
    {
      if Webhook.UrlSet(notifier.webhookUrl) {
        notifier.Enable();
      }
      if resources.Err? {
        // `get_system_resources()` raised; the exception leaves `start`
        return [], false, [];
      }
      var started := Event("app.started", Dict(map["resources" := resources.value]));
      var startedLog := Announce(started, raises);
      var loaded: seq<Event> := [];
      var loadedLog: seq<Bus.Delivery> := [];
      completed := true;
      if entries != [] {
        loaded, completed, loadedLog := LoadModules(entries, fs, raises);
      }
      events := [started] + loaded;
      log := startedLog + loadedLog;
      EventDeliveriesAppend(bus.subscribers, [started], loaded, raises);
      if completed {
        running := true;
      }
    }

    /** `shutdown`: nothing when not running; otherwise clear the flag,
        disable the notifier, publish `app.shutdown` (no data) to the
        subscribers it had, shut the loader down and clear every topic.  The
        publication reaches the subscribers before the bus is cleared, and a
        second call does nothing. */
    method Shutdown(raises: (Bus.Callback, Value) -> bool)
      returns (delivered: seq<Bus.Delivery>)
      requires Valid()
      modifies this, loader, notifier, bus
      ensures Valid() && !running
      ensures !old(running) ==> delivered == [] && unchanged(this, loader, notifier, bus)
      ensures old(running) ==> !notifier.enabled && notifier.webhookUrl == old(notifier.webhookUrl)
      ensures old(running) ==> loader.View() == Loader.ShutdownState(old(loader.View()))
      ensures old(running) ==> |delivered| == |old(bus.Subscribers("app.shutdown"))|
      ensures old(running) ==> forall i :: 0 <= i < |delivered| ==>
                delivered[i] == Bus.Delivery(old(bus.Subscribers("app.shutdown"))[i], Null,
                                             raises(old(bus.Subscribers("app.shutdown"))[i], Null))
      ensures old(running) ==> forall t :: bus.Subscribers(t) == []
    {
      if !running {
        return [];
      }
      running := false;
      // `if self.webhook_notifier:` holds for any notifier object
      notifier.Disable();
      delivered := bus.Publish("app.shutdown", Null, raises);
      loader.Shutdown();
      bus.Clear(None);
    }
  }
}
