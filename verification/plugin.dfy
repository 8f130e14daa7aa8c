/** The plugin (FlowbirdPluginAdapter): the registry of the five readers by
    name, lookups in it, and teardown. */
module Plugin {
  import opened Base
  import opened ReaderLifecycle
  import ContactReader
  import ContactlessReader

  const MONITORING_CYCLE_DURATION_MS: int := 1000

  /** `FlowbirdContactReader.READER_NAME` and `FlowbirdContactlessReader.READER_NAME`;
      their values are not part of this model. */
  datatype ReaderNames = ReaderNames(samReaderName: string, clessReaderName: string)

  /** A reader the plugin hands to the framework. */
  datatype ReaderSpi =
    | SamReader(sam: ContactReader.ContactReader)
    | ClessReader(cless: ContactlessReader.Contactless)

  function NameOf(n: ReaderNames, r: ReaderSpi): string {
    match r
    case SamReader(sam) => ContactReader.Name(n.samReaderName, sam)
    case ClessReader(_) => n.clessReaderName
  }

  /** The name of the SAM reader of a slot. */
  function SamName(n: ReaderNames, slot: SamSlot): string {
    ContactReader.Name(n.samReaderName, ContactReader.ContactReader(slot, false))
  }

  /** The contactless reader's name is none of the four SAM names. */
  predicate DistinctNames(n: ReaderNames) {
    forall slot: SamSlot :: n.clessReaderName != SamName(n, slot)
  }

  /** The plugin's state: whether its weak reference still holds the Android
      context, and the `lateinit` reader map, `Null` until first assigned. */
  datatype PluginAdapter = PluginAdapter(contextHeld: bool, seReaders: Option<map<string, ReaderSpi>>)

  function New(): PluginAdapter {
    PluginAdapter(true, Null)
  }

  datatype Search = Search(plugin: PluginAdapter, readers: Result<set<ReaderSpi>>)

  /** The four SAM readers, inserted under their names in slot order. */
  function SamMap(n: ReaderNames): map<string, ReaderSpi> {
    map[]
      [SamName(n, ONE) := SamReader(ContactReader.ContactReader(ONE, false))]
      [SamName(n, TWO) := SamReader(ContactReader.ContactReader(TWO, false))]
      [SamName(n, THREE) := SamReader(ContactReader.ContactReader(THREE, false))]
      [SamName(n, FOUR) := SamReader(ContactReader.ContactReader(FOUR, false))]
  }

  /** `searchAvailableReaders`: assign a fresh empty map, construct the four
      SAM readers and the contactless reader, inserting each under its name,
      and return the map's values. Constructing a reader fails while the
      reader singleton is absent, and the contactless reader needs the
      context, so either failure leaves a partly filled map behind. */
  function SearchAvailableReaders(p: PluginAdapter, l: Lifecycle, n: ReaderNames,
                                  config: map<string, string>): (r: Search)
    ensures r.plugin.contextHeld == p.contextHeld && r.plugin.seReaders.Some?
    ensures r.readers.Ok? <==> GetInstance(l).Ok? && p.contextHeld
    ensures GetInstance(l).Throws? ==> r == Search(p.(seReaders := Some(map[])), Throws(ReaderIO))
    ensures GetInstance(l).Ok? && !p.contextHeld ==>
      r == Search(p.(seReaders := Some(SamMap(n))), Throws(NullPointer))
    ensures r.readers.Ok? ==> r.readers.value == r.plugin.seReaders.value.Values
    ensures r.readers.Ok? ==>
      && r.plugin.seReaders.value.Keys == {SamName(n, ONE), SamName(n, TWO), SamName(n, THREE),
                                           SamName(n, FOUR), n.clessReaderName}
      && r.plugin.seReaders.value[n.clessReaderName].ClessReader?
      && r.plugin.seReaders.value[n.clessReaderName].cless == ContactlessReader.New(l, config).value
  {
    match GetInstance(l)
    case Throws(e) => Search(p.(seReaders := Some(map[])), Throws(e))
    case Ok(_) =>
      if !p.contextHeld then Search(p.(seReaders := Some(SamMap(n))), Throws(NullPointer))
      else
        var cless := ContactlessReader.New(l, config).value;
        var all := SamMap(n)[n.clessReaderName := ClessReader(cless)];
        Search(p.(seReaders := Some(all)), Ok(all.Values))
  }

  /** The map is rebuilt from scratch: what a previous search left behind
      plays no part. */
  lemma SearchIsFresh(p: PluginAdapter, q: PluginAdapter, l: Lifecycle, n: ReaderNames,
                      config: map<string, string>)
    requires p.contextHeld == q.contextHeld
    ensures SearchAvailableReaders(p, l, n, config) == SearchAvailableReaders(q, l, n, config)
  {
  }

  /** The SAM names of the four slots differ from one another. */
  lemma SamNamesDistinct(n: ReaderNames)
    ensures SamName(n, ONE) != SamName(n, TWO) && SamName(n, ONE) != SamName(n, THREE)
    ensures SamName(n, ONE) != SamName(n, FOUR) && SamName(n, TWO) != SamName(n, THREE)
    ensures SamName(n, TWO) != SamName(n, FOUR) && SamName(n, THREE) != SamName(n, FOUR)
  {
    var r1, r2, r3, r4 := ContactReader.ContactReader(ONE, false), ContactReader.ContactReader(TWO, false),
                          ContactReader.ContactReader(THREE, false), ContactReader.ContactReader(FOUR, false);
    ContactReader.NamesDistinct(n.samReaderName, r1, r2);
    ContactReader.NamesDistinct(n.samReaderName, r1, r3);
    ContactReader.NamesDistinct(n.samReaderName, r1, r4);
    ContactReader.NamesDistinct(n.samReaderName, r2, r3);
    ContactReader.NamesDistinct(n.samReaderName, r2, r4);
    ContactReader.NamesDistinct(n.samReaderName, r3, r4);
  }

  /** Five pairwise different elements make a set of five. */
  lemma FiveDistinct<T>(a: T, b: T, c: T, d: T, e: T)
    requires a != b && a != c && a != d && a != e
    requires b != c && b != d && b != e
    requires c != d && c != e && d != e
    ensures |{a, b, c, d, e}| == 5
  {
    assert |{a}| == 1;
    assert |{a, b}| == 2 by { assert {a, b} == {a} + {b}; }
    assert |{a, b, c}| == 3 by { assert {a, b, c} == {a, b} + {c}; }
    assert |{a, b, c, d}| == 4 by { assert {a, b, c, d} == {a, b, c} + {d}; }
    assert {a, b, c, d, e} == {a, b, c, d} + {e};
  }

  /** With distinct names the registry holds exactly five readers, each
      under its own name. */
  lemma FiveReaders(p: PluginAdapter, l: Lifecycle, n: ReaderNames, config: map<string, string>)
    requires DistinctNames(n)
    requires SearchAvailableReaders(p, l, n, config).readers.Ok?
    ensures var m := SearchAvailableReaders(p, l, n, config).plugin.seReaders.value;
      && |m.Keys| == 5
      && |m.Values| == 5
      && (forall slot: SamSlot :: SamName(n, slot) in m &&
            m[SamName(n, slot)] == SamReader(ContactReader.ContactReader(slot, false)))
  {
    var cless := ClessReader(ContactlessReader.New(l, config).value);
    var m := SearchAvailableReaders(p, l, n, config).plugin.seReaders.value;
    assert m == SamMap(n)[n.clessReaderName := cless];
    var s1, s2, s3, s4, s5 := SamName(n, ONE), SamName(n, TWO), SamName(n, THREE), SamName(n, FOUR), n.clessReaderName;
    SamNamesDistinct(n);
    assert s5 != s1 && s5 != s2 && s5 != s3 && s5 != s4;
    forall slot: SamSlot
      ensures SamName(n, slot) in m && m[SamName(n, slot)] == SamReader(ContactReader.ContactReader(slot, false))
    {
      SlotCases(slot);
    }
    assert m.Keys == {s1, s2, s3, s4, s5};
    FiveDistinct(s1, s2, s3, s4, s5);
    var v1, v2, v3, v4 := m[s1], m[s2], m[s3], m[s4];
    assert m.Values == {v1, v2, v3, v4, cless} by {
      forall v | v in m.Values ensures v in {v1, v2, v3, v4, cless} {
        var k :| k in m && m[k] == v;
      }
      assert m[s5] == cless;
    }
    FiveDistinct(v1, v2, v3, v4, cless);
  }

  /** Every registered reader sits under its own name. */
  lemma ReadersUnderOwnNames(p: PluginAdapter, l: Lifecycle, n: ReaderNames, config: map<string, string>, name: string)
    requires DistinctNames(n)
    requires SearchAvailableReaders(p, l, n, config).readers.Ok?
    requires name in SearchAvailableReaders(p, l, n, config).plugin.seReaders.value
    ensures NameOf(n, SearchAvailableReaders(p, l, n, config).plugin.seReaders.value[name]) == name
  {
    var m := SearchAvailableReaders(p, l, n, config).plugin.seReaders.value;
    assert m == SamMap(n)[n.clessReaderName := ClessReader(ContactlessReader.New(l, config).value)];
    SamNamesDistinct(n);
  }

  /** `searchReader`: the reader registered under the name, or null. A null
      name is rejected by the concurrent map, and a lookup before the first
      search reads an uninitialised property. */
  function SearchReader(p: PluginAdapter, name: Option<string>): (r: Result<Option<ReaderSpi>>)
    ensures p.seReaders.Null? ==> r == Throws(UninitializedProperty)
    ensures p.seReaders.Some? && name.Null? ==> r == Throws(NullPointer)
    ensures p.seReaders.Some? && name.Some? ==>
      && r.Ok?
      && (r.value.Some? <==> name.value in p.seReaders.value)
      && (r.value.Some? ==> r.value.value == p.seReaders.value[name.value])
  {
    match p.seReaders
    case Null => Throws(UninitializedProperty)
    case Some(m) =>
      match name
      case Null => Throws(NullPointer)
      case Some(k) => if k in m then Ok(Some(m[k])) else Ok(Null)
  }

  /** `searchAvailableReaderNames`: the key set of the map. */
  function SearchAvailableReaderNames(p: PluginAdapter): (r: Result<set<string>>)
    ensures p.seReaders.Null? ==> r == Throws(UninitializedProperty)
    ensures p.seReaders.Some? ==> r == Ok(p.seReaders.value.Keys)
  {
    match p.seReaders
    case Null => Throws(UninitializedProperty)
    case Some(m) => Ok(m.Keys)
  }

  /** Every returned name finds its reader, and the readers returned by the
      search are exactly those found by name. */
  lemma NamesFindReaders(p: PluginAdapter, l: Lifecycle, n: ReaderNames, config: map<string, string>, name: string)
    requires SearchAvailableReaders(p, l, n, config).readers.Ok?
    ensures var s := SearchAvailableReaders(p, l, n, config);
      && (name in SearchAvailableReaderNames(s.plugin).value <==>
           SearchReader(s.plugin, Some(name)).value.Some?)
      && (SearchReader(s.plugin, Some(name)).value.Some? ==>
           SearchReader(s.plugin, Some(name)).value.value in s.readers.value)
  {
  }

  /** `getMonitoringCycleDuration`: one second, whatever the plugin's state. */
  function GetMonitoringCycleDuration(p: PluginAdapter): (ms: int)
    ensures ms == 1000
  {
    MONITORING_CYCLE_DURATION_MS
  }

  datatype PluginUnregistered = PluginUnregistered(plugin: PluginAdapter, cleared: Cleared)

  /** `onUnregister`: clear the reader singleton, then drop the context;
      when the clearing throws the context is kept. */
  function OnUnregister(p: PluginAdapter, l: Lifecycle): (r: PluginUnregistered)
    ensures r.cleared == ClearInstance(l)
    ensures r.cleared.outcome.Ok? ==> r.plugin == p.(contextHeld := false)
    ensures r.cleared.outcome.Throws? ==> r.plugin == p
  {
    var cleared := ClearInstance(l);
    if cleared.outcome.Ok? then PluginUnregistered(p.(contextHeld := false), cleared)
    else PluginUnregistered(p, cleared)
  }

  /** Unregistering the contactless reader already clears the singleton, so
      unregistering the plugin afterwards throws ReaderIOException and keeps
      the context. */
  lemma UnregisterAfterContactlessUnregisterFails(p: PluginAdapter, s: ContactlessReader.Contactless, l: Lifecycle)
    requires ClearInstance(l).outcome.Ok?
    ensures var afterReader := ContactlessReader.OnUnregister(s, l).lifecycle.lifecycle;
      && OnUnregister(p, afterReader).cleared.outcome == Throws(ReaderIO)
      && OnUnregister(p, afterReader).plugin.contextHeld == p.contextHeld
  {
    ClearInstanceTwiceFails(l);
  }
}
