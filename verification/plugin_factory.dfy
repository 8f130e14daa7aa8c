/** The plugin factory (FlowbirdPluginFactoryAdapter): it initialises the
    reader, creates the plugin, and hands it to the framework. */
module PluginFactory {
  import opened Base
  import opened ReaderLifecycle
  import Plugin

  /** The factory's `lateinit` plugin, `Null` until `init` assigns it. */
  datatype Factory = Factory(pluginAdapter: Option<Plugin.PluginAdapter>)

  /** A factory just constructed. */
  const Created: Factory := Factory(Null)

  /** What `init` leaves behind: the factory, the reader lifecycle, and what
      the call returns (the factory itself) or throws. */
  datatype InitOutcome = InitOutcome(factory: Factory, lifecycle: Lifecycle, result: Result<Factory>)

  /** `init`: initialise the reader; an exception from `initReader` escapes
      before the plugin is assigned. Otherwise assign a new plugin whatever
      the result, then return the factory when the reader started and throw
      ReaderIOException when it did not. */
  function Init(f: Factory, l: Lifecycle, read: AtrSource, events: seq<BindEvent>): (r: InitOutcome)
    ensures r.lifecycle == InitReader(l, read, events).lifecycle
    ensures InitReader(l, read, events).outcome.Throws? ==>
      r.factory == f && r.result == Throws(InitReader(l, read, events).outcome.error)
    ensures InitReader(l, read, events).outcome.Ok? ==> r.factory == Factory(Some(Plugin.New()))
    ensures r.result.Ok? <==> InitReader(l, read, events).outcome == Ok(true)
    ensures r.result.Ok? ==> r.result.value == r.factory
    ensures InitReader(l, read, events).outcome == Ok(false) ==> r.result == Throws(ReaderIO)
  {
    var initialised := InitReader(l, read, events);
    match initialised.outcome
    case Throws(e) => InitOutcome(f, initialised.lifecycle, Throws(e))
    case Ok(started) =>
      var withPlugin := f.(pluginAdapter := Some(Plugin.New()));
      InitOutcome(withPlugin, initialised.lifecycle, if started then Ok(withPlugin) else Throws(ReaderIO))
  }

  /** `getPlugin`: the plugin, or UninitializedPropertyAccessException before `init`. */
  function GetPlugin(f: Factory): (r: Result<Plugin.PluginAdapter>)
    ensures f.pluginAdapter.Null? <==> r == Throws(UninitializedProperty)
    ensures f.pluginAdapter.Some? ==> r == Ok(f.pluginAdapter.value)
  {
    match f.pluginAdapter
    case Null => Throws(UninitializedProperty)
    case Some(p) => Ok(p)
  }

  /** `init` succeeds exactly when every ATR reads and the first bind event
      is `onJoined`. Once the ATRs are read a plugin is available afterwards
      even when `init` fails; when an ATR cannot be read the factory is left
      as it was, so a fresh factory still has no plugin. */
  lemma InitSucceedsOnJoin(f: Factory, l: Lifecycle, read: AtrSource, events: seq<BindEvent>)
    ensures Init(f, l, read, events).result.Ok? <==> AtrsReadable(read) && |events| > 0 && events[0].Joined?
    ensures AtrsReadable(read) ==> GetPlugin(Init(f, l, read, events).factory) == Ok(Plugin.New())
    ensures !AtrsReadable(read) ==> GetPlugin(Init(Created, l, read, events).factory) == Throws(UninitializedProperty)
  {
    InitResultIsFirstEvent(l, read, events);
  }

  /** A first start: once the service joins, the plugin obtained from the
      factory finds five readers by distinct names. */
  lemma JoinThenFiveReaders(read: AtrSource, initDone: bool, apduReaderBound: bool,
                            n: Plugin.ReaderNames, config: map<string, string>)
    requires AtrsReadable(read) && Plugin.DistinctNames(n)
    ensures var o := Init(Created, Unloaded, read, [Joined(initDone, apduReaderBound)]);
      && o.result.Ok?
      && GetPlugin(o.factory).Ok?
      && var s := Plugin.SearchAvailableReaders(GetPlugin(o.factory).value, o.lifecycle, n, config);
         s.readers.Ok? && |s.readers.value| == 5
  {
    var events := [Joined(initDone, apduReaderBound)];
    var o := Init(Created, Unloaded, read, events);
    InitResultIsFirstEvent(Unloaded, read, events);
    var prepared := Prepared(Unloaded, read);
    assert events[1..] == [];
    assert BindRun(prepared, events).binding == BindStep(prepared, events[0]).binding;
    var p := GetPlugin(o.factory).value;
    assert GetInstance(o.lifecycle) == Ok(Instance(apduReaderBound));
    Plugin.FiveReaders(p, o.lifecycle, n, config);
  }
}
