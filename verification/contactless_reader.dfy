/** The contactless reader (FlowbirdContactlessReaderAdapter): protocol
    activation, the hunt-driven detection state machine, the configuration
    observer, the APDU exchange with the current card, and teardown.
    Vendor hunters are abstracted to a count of hunters created, a hunting
    flag for the current one, and whether the hunt listener is registered. */
module ContactlessReader {
  import opened Base
  import opened Protocols
  import opened Tags
  import opened HuntListener
  import opened Exchange
  import opened ReaderLifecycle

  /** Timeout of one card exchange, in milliseconds. */
  const APDU_TIMEOUT_MS: nat := 1000

  /** Configuration key written by protocol activation. */
  const CONFIG_CURRENT_PROTOCOL_KEY: string := "/contactless/hunt/pollscript/modes/current"

  /** State key whose changes the configuration observer watches. */
  const CONFIG_ACTIVE_PROTOCOL_KEY: string := "/contactless/hunt/pollscript/modes/active"

  /** The one listener function the adapter installs: its `handleTagResult`. */
  datatype Handler = HandleTagResult

  /** The adapter's `protocols` list. */
  function AcceptedProtocols(): seq<Protocol> {
    [Protocol.ALL, Protocol.A, Protocol.B]
  }

  /** A notification to the reader framework. */
  datatype Notification = CardInserted | CardRemovedNotice

  datatype Contactless = Contactless(
    currentTag: Option<Tag>,
    currentProtocol: Option<Protocol>,
    isConnected: bool,
    isCardDiscovered: bool,
    huntersCreated: nat,            // CompetitionHunter instances created so far
    hunting: bool,                  // the current hunter is detecting
    listenerAdded: bool,            // the hunt listener is registered with the current hunter
    listener: Listener<Handler>,    // the shared MyHuntEventListener
    config: map<string, string>,    // the configuration store
    observerEnabled: bool,          // the observer of CONFIG_ACTIVE_PROTOCOL_KEY
    insertionApi: bool,             // a card-insertion callback is connected
    removalApi: bool)               // a card-removal callback is connected

  /** The effect of one event: the next state, the notifications sent, and
      the exception thrown to whoever delivered the event, if any. */
  datatype Step = Step(reader: Contactless, notices: seq<Notification>, thrown: Option<Exception>)

  function LookupConfig(config: map<string, string>, key: string): Option<string> {
    if key in config then Some(config[key]) else Null
  }

  /** `configureService`: stop the current hunter, take a fresh one, set the
      listener function and register the listener with the new hunter. */
  function ConfigureService(s: Contactless, sink: Option<Handler>): (r: Contactless)
    ensures !r.hunting && r.listenerAdded && r.listener.sink == sink
    ensures r.huntersCreated == s.huntersCreated + 1
    ensures r.currentTag == s.currentTag && r.currentProtocol == s.currentProtocol
    ensures r.config == s.config && r.observerEnabled == s.observerEnabled
  {
    s.(hunting := false, huntersCreated := s.huntersCreated + 1,
       listener := SetListener(s.listener, sink), listenerAdded := true)
  }

  /** `onStartDetection`: configure the current hunter and start it. */
  function StartDetection(s: Contactless): (r: Contactless)
    ensures r.hunting && r == s.(hunting := true)
  {
    s.(hunting := true)
  }

  /** `onStopDetection`: stop the current hunter. */
  function StopDetection(s: Contactless): (r: Contactless)
    ensures !r.hunting && r == s.(hunting := false)
  {
    s.(hunting := false)
  }

  /** `restart`: a fresh hunter wired to `handleTagResult`, started only when asked. */
  function Restart(s: Contactless, startCardDetection: bool): (r: Contactless)
    ensures r.hunting == startCardDetection
    ensures r.huntersCreated == s.huntersCreated + 1
    ensures r.listener.sink == Some(HandleTagResult) && r.listenerAdded
    ensures r.currentTag == s.currentTag && r.currentProtocol == s.currentProtocol
    ensures r.config == s.config && r.observerEnabled == s.observerEnabled
    ensures r.insertionApi == s.insertionApi && r.removalApi == s.removalApi
  {
    var configured := ConfigureService(s, Some(HandleTagResult));
    if startCardDetection then StartDetection(configured) else configured
  }

  /** The constructor: it fetches the reader singleton (failing while the
      reader is not initialised), restarts without detection and enables the
      configuration observer. */
  function New(l: Lifecycle, config: map<string, string>): (r: Result<Contactless>)
    ensures r.Ok? <==> GetInstance(l).Ok?
    ensures r.Throws? ==> r.error == ReaderIO
    ensures r.Ok? ==>
      && r.value.currentTag.Null? && r.value.currentProtocol.Null?
      && !r.value.hunting && r.value.huntersCreated == 1
      && r.value.listener.sink == Some(HandleTagResult)
      && r.value.observerEnabled && !r.value.isConnected
      && r.value.config == config
  {
    match GetInstance(l)
    case Throws(e) => Throws(e)
    case Ok(_) =>
      var blank := Contactless(Null, Null, false, false, 0, false, false, Listener(Null, false),
                               config, false, false, false);
      Ok(Restart(blank, false).(observerEnabled := true))
  }

  /** The two `connect` calls by which the framework installs its callbacks. */
  function ConnectInsertion(s: Contactless, connected: bool): (r: Contactless)
    ensures r.insertionApi == connected
    ensures r.(insertionApi := s.insertionApi) == s
  {
    s.(insertionApi := connected)
  }

  function ConnectRemoval(s: Contactless, connected: bool): (r: Contactless)
    ensures r.removalApi == connected
    ensures r.(removalApi := s.removalApi) == s
  {
    s.(removalApi := connected)
  }

  /** `onTagDiscovered`: a non-null tag becomes the current tag, marks a card
      discovered and notifies one insertion; a null tag changes nothing. */
  function OnTagDiscovered(s: Contactless, tag: Option<Tag>): (r: Step)
    ensures tag.Null? ==> r == Step(s, [], Null)
    ensures tag.Some? ==>
      && r.reader == s.(currentTag := tag, isCardDiscovered := true)
      && CheckCardPresence(r.reader)
      && r.notices == (if s.insertionApi then [CardInserted] else [])
      && r.thrown.Null?
  {
    match tag
    case Null => Step(s, [], Null)
    case Some(_) =>
      Step(s.(currentTag := tag, isCardDiscovered := true), if s.insertionApi then [CardInserted] else [], Null)
  }

  /** `handleTagResult`: a success is a discovery; an error is rethrown as
      IllegalStateException; a removal notifies and restarts without
      re-arming detection, keeping the current tag. */
  function HandleTagResultOf(s: Contactless, e: HuntEventResult<Tag>): (r: Step)
    ensures e.TagResultSuccess? ==> r == OnTagDiscovered(s, Some(e.data))
    ensures e.TagResultError? ==> r == Step(s, [], Some(IllegalState))
    ensures e.CardRemoved? ==>
      && r.notices == (if s.removalApi then [CardRemovedNotice] else [])
      && !r.reader.hunting
      && r.reader.huntersCreated == s.huntersCreated + 1
      && r.reader.currentTag == s.currentTag
      && r.reader.listener.sink == Some(HandleTagResult)
      && r.thrown.Null?
    ensures r.reader.currentProtocol == s.currentProtocol && r.reader.observerEnabled == s.observerEnabled
  {
    match e
    case TagResultSuccess(tag) => OnTagDiscovered(s, Some(tag))
    case TagResultError(_) => Step(s, [], Some(IllegalState))
    case CardRemoved => Step(Restart(s, false), if s.removalApi then [CardRemovedNotice] else [], Null)
  }

  /** A hunt-service callback, through the shared listener. */
  function OnHuntCallback(s: Contactless, v: Vendor, c: Callback): (r: Step)
    ensures s.listener.sink.Null? ==> r.notices == [] && r.reader.listener == React(s.listener, v, c).listener
    ensures c.Errored? ==> r == Step(s, [], Null)
    ensures s.listener.sink.Some? && c.Detected? && Decode(v, c.data).Ok? ==>
      r == OnTagDiscovered(s.(listener := React(s.listener, v, c).listener), Some(Decode(v, c.data).value.tag))
    ensures s.listener.sink.Some? && c.Removed? ==> r == HandleTagResultOf(s, CardRemoved)
    ensures c.Detected? && Decode(v, c.data).Throws? ==>
      r.reader.currentTag == s.currentTag && r.notices == [] && r.thrown == Some(Decode(v, c.data).error)
    ensures r.reader.currentProtocol == s.currentProtocol && r.reader.observerEnabled == s.observerEnabled
  {
    var reaction := React(s.listener, v, c);
    var next := s.(listener := reaction.listener);
    if |reaction.delivered| == 0 then Step(next, [], reaction.thrown)
    else HandleTagResultOf(next, reaction.delivered[0].event)
  }

  /** `isCurrentProtocol`: whether a protocol was activated and `name` is its key. */
  function IsCurrentProtocol(s: Contactless, name: Option<string>): (b: bool)
    ensures b ==> s.currentProtocol.Some? && name.Some? && name.value in DefinedKeys()
    ensures b <==> s.currentProtocol.Some? && name.Some? && FindEnumByKey(name.value) == Ok(s.currentProtocol.value)
  {
    FindByOwnKey(if s.currentProtocol.Some? then s.currentProtocol.value else ALL);
    s.currentProtocol.Some? && name == Some(Key(s.currentProtocol.value))
  }

  /** `checkCardPresence`: whether a tag has been discovered. */
  predicate CheckCardPresence(s: Contactless) {
    s.currentTag.Some?
  }

  /** `isProtocolSupported`: true for every defined key; a null name is a
      null dereference and an undefined one throws at lookup, so it never
      answers false. */
  function IsProtocolSupported(name: Option<string>): (r: Result<bool>)
    ensures r.Ok? <==> name.Some? && name.value in DefinedKeys()
    ensures r.Ok? ==> r.value
    ensures name.Null? ==> r == Throws(NullPointer)
    ensures name.Some? && name.value !in DefinedKeys() ==> r == Throws(IllegalState)
  {
    match name
    case Null => Throws(NullPointer)
    case Some(k) =>
      match FindEnumByKey(k)
      case Throws(e) => Throws(e)
      case Ok(p) => Ok(|k| > 0 && p in AcceptedProtocols())
  }

  /** `activateProtocol`: a defined key is written under the current-protocol
      key and becomes the current protocol; null is rejected with
      IllegalArgumentException and an undefined key throws at lookup. */
  function ActivateProtocol(s: Contactless, name: Option<string>): (r: Result<Contactless>)
    ensures r.Ok? <==> name.Some? && name.value in DefinedKeys()
    ensures name.Null? ==> r == Throws(IllegalArgument)
    ensures name.Some? && name.value !in DefinedKeys() ==> r == Throws(IllegalState)
    ensures r.Ok? ==>
      && r.value.config == s.config[CONFIG_CURRENT_PROTOCOL_KEY := name.value]
      && r.value.currentProtocol.Some? && Key(r.value.currentProtocol.value) == name.value
      && (forall n :: IsCurrentProtocol(r.value, n) <==> n == name)
      && r.value.(config := s.config, currentProtocol := s.currentProtocol) == s
  {
    match name
    case Null => Throws(IllegalArgument)
    case Some(k) =>
      match FindEnumByKey(k)
      case Throws(e) => Throws(e)
      case Ok(p) =>
        if p in AcceptedProtocols() then
          Ok(s.(config := s.config[CONFIG_CURRENT_PROTOCOL_KEY := Key(p)], currentProtocol := Some(p)))
        else Throws(IllegalArgument)
  }

  /** The configuration observer: when the active-protocol state changes and
      the configured current protocol is the one activated here, restart with
      detection re-armed. */
  function OnActiveProtocolChanged(s: Contactless): (r: Contactless)
    ensures (s.observerEnabled && s.currentProtocol.Some? &&
             LookupConfig(s.config, CONFIG_CURRENT_PROTOCOL_KEY) == Some(Key(s.currentProtocol.value)))
      ==> r.hunting && r.huntersCreated == s.huntersCreated + 1 && r.currentTag == s.currentTag
    ensures !(s.observerEnabled && s.currentProtocol.Some? &&
              LookupConfig(s.config, CONFIG_CURRENT_PROTOCOL_KEY) == Some(Key(s.currentProtocol.value)))
      ==> r == s
  {
    if s.observerEnabled && s.currentProtocol.Some?
       && LookupConfig(s.config, CONFIG_CURRENT_PROTOCOL_KEY) == Some(Key(s.currentProtocol.value))
    then Restart(s, true)
    else s
  }

  /** Activating a protocol and then seeing the active-protocol state change
      re-arms detection on a fresh hunter. */
  lemma ActivationThenObserverRestarts(s: Contactless, k: string)
    requires s.observerEnabled && k in DefinedKeys()
    ensures ActivateProtocol(s, Some(k)).Ok?
    ensures var a := ActivateProtocol(s, Some(k)).value;
      OnActiveProtocolChanged(a).hunting && OnActiveProtocolChanged(a).huntersCreated == s.huntersCreated + 1
  {
  }

  /** `openPhysicalChannel` and `closePhysicalChannel` only set the flag
      `isPhysicalChannelOpen` reports. */
  function OpenPhysicalChannel(s: Contactless): (r: Contactless)
    ensures IsPhysicalChannelOpen(r) && r.(isConnected := s.isConnected) == s
  {
    s.(isConnected := true)
  }

  function ClosePhysicalChannel(s: Contactless): (r: Contactless)
    ensures !IsPhysicalChannelOpen(r) && r.(isConnected := s.isConnected) == s
  {
    s.(isConnected := false)
  }

  predicate IsPhysicalChannelOpen(s: Contactless) {
    s.isConnected
  }

  /** The channel flag follows the last open or close. */
  lemma ChannelFlagFollowsLastCall(s: Contactless)
    ensures IsPhysicalChannelOpen(OpenPhysicalChannel(ClosePhysicalChannel(s)))
    ensures !IsPhysicalChannelOpen(ClosePhysicalChannel(OpenPhysicalChannel(s)))
    ensures OpenPhysicalChannel(OpenPhysicalChannel(s)) == OpenPhysicalChannel(s)
    ensures ClosePhysicalChannel(OpenPhysicalChannel(s)).(isConnected := s.isConnected) == s
  {
  }

  /** `isContactless`: this reader is the contactless one. */
  function IsContactless(s: Contactless): (b: bool)
    ensures b
  {
    true
  }

  /** The card id an exchange addresses: the current tag's, or 0 when there
      is no tag or the tag carries no id. */
  function CardId(s: Contactless): (id: Long)
    ensures s.currentTag.Some? && s.currentTag.value.cardId.Some? ==> id == s.currentTag.value.cardId.value
    ensures s.currentTag.Null? || s.currentTag.value.cardId.Null? ==> id == 0
  {
    if s.currentTag.Some? then s.currentTag.value.cardId.OrElse(0) else 0
  }

  /** After a discovery the exchanges address the discovered tag's id. */
  lemma CardIdOfDiscoveredTag(s: Contactless, tag: Tag)
    ensures CardId(OnTagDiscovered(s, Some(tag)).reader) == tag.cardId.OrElse(0)
  {
  }

  /** The callbacks installed by `connect` decide whether a discovery or a
      removal reaches the framework. */
  lemma ConnectedCallbacksNotify(s: Contactless, tag: Tag)
    ensures OnTagDiscovered(ConnectInsertion(s, true), Some(tag)).notices == [CardInserted]
    ensures OnTagDiscovered(ConnectInsertion(s, false), Some(tag)).notices == []
    ensures HandleTagResultOf(ConnectRemoval(s, true), CardRemoved).notices == [CardRemovedNotice]
    ensures HandleTagResultOf(ConnectRemoval(s, false), CardRemoved).notices == []
  {
  }

  /** `transmitApdu`: a null APDU gives an empty array without any exchange;
      on the UI thread it throws before any exchange; otherwise it exchanges
      with the current card, a null result (a timeout, or a null first
      response left to time out) becomes an empty array and an exception in
      the exchange becomes IllegalStateException. It never returns null. The
      exchange goes through the singleton's APDU reader handle. */
  function TransmitApdu(s: Contactless, l: Lifecycle, apduIn: Option<Bytes>, uiThread: bool,
                        events: seq<Exchange.Event>): (t: Transmission<Bytes>)
    ensures apduIn.Null? ==> t == Transmission(Ok([]), Null)
    ensures apduIn.Some? && uiThread ==> t == Transmission(Throws(IllegalState), Null)
    ensures t.issued.Some? <==> apduIn.Some? && !uiThread && HandleBound(l)
    ensures t.issued.Some? ==> t.issued.value == Request(Card(CardId(s)), [apduIn.value])
    ensures apduIn.Some? && !uiThread ==>
      match Outcome(HandleBound(l), events)
      case Returned(Some(v)) => t.result == Ok(v)
      case Returned(Null) => t.result == Ok([])
      case Raised(_) => t.result == Throws(IllegalState)
  {
    if apduIn.Null? then Transmission(Ok([]), Null)
    else if uiThread then Transmission(Throws(IllegalState), Null)
    else
      var issued := if HandleBound(l) then Some(Request(Card(CardId(s)), [apduIn.value])) else Null;
      match Outcome(HandleBound(l), events)
      case Returned(v) => Transmission(Ok(v.OrElse([])), issued)
      case Raised(_) => Transmission(Throws(IllegalState), issued)
  }

  /** The transmit guards are ordered differently from the SAM reader's: a
      null APDU on the UI thread returns an empty array here. */
  lemma NullApduBeatsUiThread(s: Contactless, l: Lifecycle, events: seq<Exchange.Event>)
    ensures TransmitApdu(s, l, Null, true, events).result == Ok([])
  {
  }

  /** A timeout yields an empty response, never an error. */
  lemma TimeoutGivesEmptyResponse(s: Contactless, l: Lifecycle, apdu: Bytes)
    ensures TransmitApdu(s, l, Some(apdu), false, [TimedOut]).result == Ok([])
  {
  }

  /** `onUnregister`: disable the observer, stop the hunt, unset and
      unregister the listener, then clear the reader singleton. */
  datatype Unregistered = Unregistered(reader: Contactless, lifecycle: Cleared)

  function OnUnregister(s: Contactless, l: Lifecycle): (r: Unregistered)
    ensures !r.reader.observerEnabled && !r.reader.hunting
    ensures r.reader.listener.sink.Null? && !r.reader.listenerAdded
    ensures r.reader.currentTag == s.currentTag && r.reader.currentProtocol == s.currentProtocol
    ensures r.lifecycle == ClearInstance(l)
  {
    var stopped := StopDetection(s.(observerEnabled := false));
    var silenced := stopped.(listener := SetListener(stopped.listener, Null), listenerAdded := false);
    Unregistered(silenced, ClearInstance(l))
  }

  /** An event in the life of the reader, in the order it is processed. */
  datatype Event =
    | Hunt(callback: Callback)       // a callback from the hunt service
    | Start                          // onStartDetection
    | Stop                           // onStopDetection
    | Activate(name: Option<string>) // activateProtocol
    | ActiveProtocolChanged          // the observed state key changed
    | Open                           // openPhysicalChannel
    | Close                          // closePhysicalChannel

  /** One event. A failed activation leaves the reader as it was. */
  function Apply(s: Contactless, v: Vendor, e: Event): (r: Step)
    ensures !e.Hunt? ==> r.notices == []
    ensures e.Activate? && ActivateProtocol(s, e.name).Throws? ==> r.reader == s
    ensures !ActivatesProtocol(e) ==> r.reader.currentProtocol == s.currentProtocol
    ensures !(e.Hunt? && e.callback.Detected?) ==> r.reader.currentTag == s.currentTag
    ensures s.listener.sink.Null? && !s.observerEnabled ==>
      r.notices == [] && r.reader.listener.sink.Null? && !r.reader.observerEnabled
  {
    match e
    case Hunt(c) => OnHuntCallback(s, v, c)
    case Start => Step(StartDetection(s), [], Null)
    case Stop => Step(StopDetection(s), [], Null)
    case Activate(name) =>
      (match ActivateProtocol(s, name)
       case Ok(next) => Step(next, [], Null)
       case Throws(err) => Step(s, [], Some(err)))
    case ActiveProtocolChanged => Step(OnActiveProtocolChanged(s), [], Null)
    case Open => Step(OpenPhysicalChannel(s), [], Null)
    case Close => Step(ClosePhysicalChannel(s), [], Null)
  }

  datatype Trace = Trace(reader: Contactless, notices: seq<Notification>)

  /** A sequence of events; exceptions go back to their senders and the run continues. */
  function Run(s: Contactless, v: Vendor, events: seq<Event>): Trace
    decreases |events|
  {
    if |events| == 0 then Trace(s, [])
    else
      var first := Apply(s, v, events[0]);
      var rest := Run(first.reader, v, events[1..]);
      Trace(rest.reader, first.notices + rest.notices)
  }

  /** Whether `e` is an activation that succeeds. */
  predicate ActivatesProtocol(e: Event) {
    e.Activate? && e.name.Some? && e.name.value in DefinedKeys()
  }

  /** Only a successful activation changes the current protocol. */
  lemma {:induction false} ProtocolOnlyChangedByActivation(s: Contactless, v: Vendor, events: seq<Event>)
    requires forall i :: 0 <= i < |events| ==> !ActivatesProtocol(events[i])
    ensures Run(s, v, events).reader.currentProtocol == s.currentProtocol
    decreases |events|
  {
    if |events| > 0 {
      ProtocolOnlyChangedByActivation(Apply(s, v, events[0]).reader, v, events[1..]);
    }
  }

  /** Only a detection changes the current tag, so `checkCardPresence`
      turns true only through a detection. */
  lemma {:induction false} PresenceOnlyFromDetection(s: Contactless, v: Vendor, events: seq<Event>)
    requires forall i :: 0 <= i < |events| ==> !(events[i].Hunt? && events[i].callback.Detected?)
    ensures Run(s, v, events).reader.currentTag == s.currentTag
    ensures CheckCardPresence(Run(s, v, events).reader) <==> CheckCardPresence(s)
    decreases |events|
  {
    if |events| > 0 {
      PresenceOnlyFromDetection(Apply(s, v, events[0]).reader, v, events[1..]);
    }
  }

  /** Before any successful activation `isCurrentProtocol` is false for every name. */
  lemma NoCurrentProtocolBeforeActivation(l: Lifecycle, config: map<string, string>, v: Vendor,
                                          events: seq<Event>, name: Option<string>)
    requires New(l, config).Ok?
    requires forall i :: 0 <= i < |events| ==> !ActivatesProtocol(events[i])
    ensures !IsCurrentProtocol(Run(New(l, config).value, v, events).reader, name)
  {
    ProtocolOnlyChangedByActivation(New(l, config).value, v, events);
  }

  /** A reader that has been unregistered stays silent: whatever events
      follow, no notification reaches the framework. */
  lemma {:induction false} SilentAfterUnregister(s: Contactless, v: Vendor, events: seq<Event>)
    requires s.listener.sink.Null? && !s.observerEnabled
    ensures Run(s, v, events).notices == []
    ensures Run(s, v, events).reader.listener.sink.Null?
    decreases |events|
  {
    if |events| > 0 {
      var first := Apply(s, v, events[0]);
      assert first.notices == [];
      assert first.reader.listener.sink.Null? && !first.reader.observerEnabled;
      SilentAfterUnregister(first.reader, v, events[1..]);
    }
  }

  lemma UnregisterSilences(s: Contactless, l: Lifecycle, v: Vendor, events: seq<Event>)
    ensures Run(OnUnregister(s, l).reader, v, events).notices == []
  {
    SilentAfterUnregister(OnUnregister(s, l).reader, v, events);
  }

  /** Once `onUnregister` has cleared the singleton, no exchange is issued:
      a transmission either throws or returns an empty array, unless the
      coroutine itself fails. */
  lemma NoExchangeAfterUnregister(s: Contactless, l: Lifecycle, apdu: Bytes, uiThread: bool,
                                  events: seq<Exchange.Event>)
    requires OnUnregister(s, l).lifecycle.outcome.Ok?
    requires forall i :: 0 <= i < |events| ==> !events[i].LaunchFailed?
    ensures var r := OnUnregister(s, l);
      var t := TransmitApdu(r.reader, r.lifecycle.lifecycle, Some(apdu), uiThread, events);
      t.issued.Null? && t.result == (if uiThread then Throws(IllegalState) else Ok([]))
  {
    var r := OnUnregister(s, l);
    Exchange.UnboundHandleTimesOut(Exchange.Start(false), events);
  }

  /** A hunt error changes nothing and notifies nothing. */
  lemma HuntErrorIsInvisible(s: Contactless, v: Vendor, data: Bundle, events: seq<Event>)
    ensures Run(s, v, [Hunt(Errored(data))] + events) == Run(s, v, events)
  {
    assert ([Hunt(Errored(data))] + events)[1..] == events;
  }

  /** A one-event run is that event's step. */
  lemma RunSingle(s: Contactless, v: Vendor, e: Event)
    ensures Run(s, v, [e]) == Trace(Apply(s, v, e).reader, Apply(s, v, e).notices)
  {
    assert [e][1..] == [];
    assert Run(Apply(s, v, e).reader, v, []) == Trace(Apply(s, v, e).reader, []);
    assert Apply(s, v, e).notices + [] == Apply(s, v, e).notices;
  }

  /** A contactless payload whose ATR carries the vendor prefix. */
  predicate ContactlessPayload(v: Vendor, data: Bundle, atr: string) {
    && CustomerType(v, data) == Some(v.typeCless)
    && GetString(data, "atr") == Some(atr)
    && |atr| >= ATR_PREFIX_LENGTH
  }

  /** After a start and a contactless detection the card is present, its
      readable data is the ATR minus the prefix and one insertion is notified. */
  lemma DetectAfterStart(l: Lifecycle, config: map<string, string>, v: Vendor, data: Bundle, atr: string)
    requires New(l, config).Ok?
    requires ContactlessPayload(v, data, atr)
    ensures var s := ConnectRemoval(ConnectInsertion(New(l, config).value, true), true);
      var detected := Run(s, v, [Start, Hunt(Detected(data))]);
      && detected.reader.hunting
      && CheckCardPresence(detected.reader)
      && detected.reader.currentTag.value.readableData == Some(atr[ATR_PREFIX_LENGTH..])
      && detected.notices == [CardInserted]
  {
    var s := ConnectRemoval(ConnectInsertion(New(l, config).value, true), true);
    var events := [Start, Hunt(Detected(data))];
    var s1 := Apply(s, v, events[0]);
    var s2 := Apply(s1.reader, v, events[1]);
    assert events[1..] == [events[1]];
    RunSingle(s1.reader, v, events[1]);
    assert Run(s1.reader, v, events[1..]) == Trace(s2.reader, s2.notices);
    assert Run(s, v, events) == Trace(s2.reader, s1.notices + s2.notices);
  }

  lemma RemovalKeepsTag(l: Lifecycle, config: map<string, string>, v: Vendor, data: Bundle, atr: string)
    requires New(l, config).Ok?
    requires ContactlessPayload(v, data, atr)
    ensures var s := ConnectRemoval(ConnectInsertion(New(l, config).value, true), true);
      var removed := Run(s, v, [Start, Hunt(Detected(data)), Hunt(Removed)]);
      && removed.notices == [CardInserted, CardRemovedNotice]
      && !removed.reader.hunting
      && removed.reader.huntersCreated == 2
      && CheckCardPresence(removed.reader)
  {
    var s := ConnectRemoval(ConnectInsertion(New(l, config).value, true), true);
    var events := [Start, Hunt(Detected(data)), Hunt(Removed)];
    var s1 := Apply(s, v, events[0]);
    var s2 := Apply(s1.reader, v, events[1]);
    var s3 := Apply(s2.reader, v, events[2]);
    assert events[1..][1..] == [events[2]];
    RunSingle(s2.reader, v, events[2]);
    assert Run(s2.reader, v, events[1..][1..]) == Trace(s3.reader, s3.notices);
    assert Run(s1.reader, v, events[1..]) == Trace(s3.reader, s2.notices + s3.notices);
    assert Run(s, v, events) == Trace(s3.reader, s1.notices + (s2.notices + s3.notices));
  }
}
