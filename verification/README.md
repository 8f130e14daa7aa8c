# Flowbird reader plugin — a Dafny model

This project models the decision logic of the Keyple reader plugin for Flowbird
Android validators. The plugin exposes five readers to the Keyple framework:

- four contact readers, one per SAM slot;
- one contactless reader, driven by the vendor's "hunt" service.

The model covers:

- the closed set of contactless protocols and lookup by key;
- the `Tag` record and the three hunt results;
- the hunt listener, which decodes a vendor payload into a tag;
- the contactless reader's state machine: detection, removal, protocol activation, the configuration observer and unregistering;
- the SAM reader's presence predicate, naming and physical-channel flag;
- the bridge that turns one asynchronous APDU exchange into one blocking `transmitApdu` result;
- the reader singleton's lifecycle: `getInstance`, `clearInstance`, `initReader` and the ATR table;
- the plugin's name-to-reader registry;
- the factory's gate that fails when the services cannot be bound or a stored SAM ATR cannot be read.

Everything is a pure function over immutable records. Hardware callbacks,
timeouts and listener events are explicit events in a trace, not concurrency:

- `Exchange.Run` folds the events one APDU call receives;
- `ReaderLifecycle.BindRun` folds the events the service binding receives;
- `HuntListener.Replay` folds hunt-service callbacks;
- `ContactlessReader.Run` folds everything the contactless reader receives.

Exceptions are values: `Result` is either `Ok(value)` or `Throws(error)`.
Kotlin's `null` is `Option.Null`.

There is one module per source file:

- `Base` — shared vocabulary;
- `Protocols`, `Tags`, `HuntListener`;
- `Exchange` — the APDU bridge, shared by both reader kinds;
- `ReaderLifecycle` — the `FlowbirdReader` companion object;
- `ContactReader`, `ContactlessReader`;
- `Plugin`, `PluginFactory`.

Six behaviours of the code worth knowing:

- **Card removal keeps the tag.** It notifies the removal and restarts the hunter with detection not re-armed, but it does not clear `currentTag`. So `checkCardPresence` still answers true afterwards (`ContactlessReader.RemovalKeepsTag`).
- **The observer compares against the current-protocol key.** The configuration observer fires on changes of the *active*-protocol key. It then compares the activated protocol with the value stored under the *current*-protocol key, and restarts only when they match (`ContactlessReader.OnActiveProtocolChanged`).
- **Unregistering twice throws.** Unregistering the contactless reader already clears the reader singleton. When the plugin is unregistered afterwards, its own `clearInstance` throws ReaderIOException, because `clearInstance` calls `getInstance`. The plugin then keeps its context (`Plugin.UnregisterAfterContactlessUnregisterFails`).
- **`isProtocolSupported` never answers false.** A defined key answers true, an undefined key throws IllegalStateException at lookup, and a null name throws a null-pointer exception.
- **An empty response list yields an empty array.** When the exchange callback gets no responses, it offers an empty array, so the call returns an empty response instead of timing out.
- **Only the first bind resume is accepted.** `onJoined` and `onBindLost` resume `initReader`'s continuation without checking that it is still waiting. Every resume after the first therefore throws IllegalStateException back into the joiner's callback, for example a service loss reported after a successful join. A timeout absorbs exactly one late resume (`ReaderLifecycle.LateResumesThrow`).

## Model

The source paths below are relative to the repository root.

| member | source | states |
|---|---|---|
| Base.DecimalString | flowbird-plugin/src/main/kotlin/org/calypsonet/keyple/plugin/flowbird/contact/FlowbirdContactReaderAdapter.kt:162 | Kotlin's decimal rendering of a slot id in reader names: only digits, no leading zero, a single digit exactly below ten, and the digits read back as the value |
| Protocols.FindIn | flowbird-plugin/src/main/kotlin/org/calypsonet/keyple/plugin/flowbird/contactless/FlowbirdSupportContactlessProtocols.kt:21-26 | the scan returns a listed value whose key is the searched key, and throws IllegalStateException exactly when no listed value has that key |
| Protocols.FindEnumByKey | flowbird-plugin/src/main/kotlin/org/calypsonet/keyple/plugin/flowbird/contactless/FlowbirdSupportContactlessProtocols.kt:20-27 | succeeds exactly for the three defined keys, returning the protocol with that key; any other string throws IllegalStateException |
| Protocols.ValuesAreClosed | flowbird-plugin/src/main/kotlin/org/calypsonet/keyple/plugin/flowbird/contactless/FlowbirdSupportContactlessProtocols.kt:14-17 | the enum is closed: every protocol is among `values()`, which lists exactly three distinct values |
| Protocols.KeyInjective | flowbird-plugin/src/main/kotlin/org/calypsonet/keyple/plugin/flowbird/contactless/FlowbirdSupportContactlessProtocols.kt:15-17 | the keys "ALL", "A", "B" are pairwise distinct: equal keys mean equal protocols |
| Protocols.FindByOwnKey | flowbird-plugin/src/main/kotlin/org/calypsonet/keyple/plugin/flowbird/contactless/FlowbirdSupportContactlessProtocols.kt:21-24 | looking a protocol up by its own key returns that protocol (lookup inverts `key`) |
| Protocols.UndefinedKeysThrow | flowbird-plugin/src/main/kotlin/org/calypsonet/keyple/plugin/flowbird/contactless/FlowbirdSupportContactlessProtocols.kt:26 | "" and "C" are rejected with IllegalStateException |
| Tags.TagEquality | flowbird-plugin/src/main/kotlin/org/calypsonet/keyple/plugin/flowbird/reader/Tag.kt:17-24 | two tags are equal exactly when their five fields are equal (data-class equality) |
| Tags.ResultVariants | flowbird-plugin/src/main/kotlin/org/calypsonet/keyple/plugin/flowbird/reader/Tag.kt:26-32 | a hunt result is exactly one of success, error or removal |
| HuntListener.Decode | flowbird-plugin/src/main/kotlin/org/calypsonet/keyple/plugin/flowbird/state/MyHuntEventListener.kt:75-102 | decoding fails exactly for a contactless payload whose "atr" is missing (null dereference) or shorter than 14 (substring); a contactless tag carries "atr", "id" and the ATR minus its 14-character prefix; a non-contactless tag has a null card id; barcode and magnetic tags have readable data equal to the ATR; only OPENPAY raises `usePeripheralResult` |
| HuntListener.DecodeBarcode | flowbird-plugin/src/main/kotlin/org/calypsonet/keyple/plugin/flowbird/state/MyHuntEventListener.kt:85-87 | a barcode tag's ATR and readable data are both the "data" field and its card id is null |
| HuntListener.DecodeMagnetic | flowbird-plugin/src/main/kotlin/org/calypsonet/keyple/plugin/flowbird/state/MyHuntEventListener.kt:88-95 | a magnetic tag holds the hex of the "track" bytes on a DDM peripheral and the "track" string otherwise, as both ATR and readable data |
| HuntListener.UsePeripheralOnlyForOpenPay | flowbird-plugin/src/main/kotlin/org/calypsonet/keyple/plugin/flowbird/state/MyHuntEventListener.kt:96-99 | an OPENPAY payload yields ATR "*****", the fixed readable data, and raises `usePeripheralResult`; no other payload raises it |
| HuntListener.DecodeUnrecognised | flowbird-plugin/src/main/kotlin/org/calypsonet/keyple/plugin/flowbird/state/MyHuntEventListener.kt:100-102 | an unrecognised or missing customer type gives empty ATR and readable data and a null card id |
| HuntListener.OnDetected | flowbird-plugin/src/main/kotlin/org/calypsonet/keyple/plugin/flowbird/state/MyHuntEventListener.kt:72-114 | at most one delivery; exactly one success carrying the decoded tag when a listener is set and decoding succeeds; a decoding failure propagates to the caller; the flag is reset on every detection |
| HuntListener.OnRemoved | flowbird-plugin/src/main/kotlin/org/calypsonet/keyple/plugin/flowbird/state/MyHuntEventListener.kt:123-126 | exactly one `CardRemoved` to a set listener, nothing when none is set |
| HuntListener.OnError | flowbird-plugin/src/main/kotlin/org/calypsonet/keyple/plugin/flowbird/state/MyHuntEventListener.kt:116-121 | the listener function is never invoked and nothing changes |
| HuntListener.SetListener | flowbird-plugin/src/main/kotlin/org/calypsonet/keyple/plugin/flowbird/state/MyHuntEventListener.kt:133-135 | the listener function is replaced by the argument and nothing else changes |
| HuntListener.React | flowbird-plugin/src/main/kotlin/org/calypsonet/keyple/plugin/flowbird/state/MyHuntEventListener.kt:72-126 | no callback changes the listener function; every delivery goes to it; with none set nothing is delivered |
| HuntListener.SilencedListenerDeliversNothing | flowbird-plugin/src/main/kotlin/org/calypsonet/keyple/plugin/flowbird/state/MyHuntEventListener.kt:133-135 | after `setListener(null)` no sequence of callbacks reaches any listener function |
| HuntListener.DeliveriesReachCurrentSink | flowbird-plugin/src/main/kotlin/org/calypsonet/keyple/plugin/flowbird/state/MyHuntEventListener.kt:104-113 | over any sequence of callbacks every delivery goes to the listener function set beforehand |
| HuntListener.ErrorsAreSwallowed | flowbird-plugin/src/main/kotlin/org/calypsonet/keyple/plugin/flowbird/state/MyHuntEventListener.kt:116-121 | removing an error callback from a run changes neither the deliveries nor the listener |
| Exchange.Offered | flowbird-plugin/src/main/kotlin/org/calypsonet/keyple/plugin/flowbird/reader/FlowbirdReader.kt:67-73 | the exchange callback offers the first response, or an empty array when there is none |
| Exchange.Start | flowbird-plugin/src/main/kotlin/org/calypsonet/keyple/plugin/flowbird/reader/FlowbirdReader.kt:57-59 | a new call waits on an active continuation with a fresh channel, and an exchange is issued exactly when the service handle is non-null |
| Exchange.HandleResponseApduResult | flowbird-plugin/src/main/kotlin/org/calypsonet/keyple/plugin/flowbird/contactless/FlowbirdContactlessReaderAdapter.kt:371-383 | acts only while the continuation is active: retires the channel, then resumes with a non-null value or with the exception; a null value leaves it waiting; otherwise the call is unchanged |
| Exchange.Step | flowbird-plugin/src/main/kotlin/org/calypsonet/keyple/plugin/flowbird/reader/FlowbirdReader.kt:57-73 | no event undoes a decided continuation, and none changes whether an exchange was issued; a vendor callback offering to a channel already closed throws ClosedSendChannelException back into `onExchangeDone`, and only then, leaving the call as it was |
| Exchange.ChannelStaysClosed | flowbird-plugin/src/main/kotlin/org/calypsonet/keyple/plugin/flowbird/contactless/FlowbirdContactlessReaderAdapter.kt:376-378 | once the exchange has closed its channel, no later event reopens it |
| Exchange.SecondCallbackThrows | flowbird-plugin/src/main/kotlin/org/calypsonet/keyple/plugin/flowbird/reader/FlowbirdReader.kt:67-73 | after a first callback has completed an issued exchange, a second `onExchangeDone` throws ClosedSendChannelException and changes nothing |
| Exchange.Settle | flowbird-plugin/src/main/kotlin/org/calypsonet/keyple/plugin/flowbird/contactless/FlowbirdContactlessReaderAdapter.kt:336 | the call returns a value exactly when the continuation was resumed with one, raises exactly when it was resumed with an exception, and otherwise returns null |
| Exchange.RunAppend | flowbird-plugin/src/main/kotlin/org/calypsonet/keyple/plugin/flowbird/contactless/FlowbirdContactlessReaderAdapter.kt:361-366 | processing two runs of events in turn is processing their concatenation |
| Exchange.FirstResultWins | flowbird-plugin/src/main/kotlin/org/calypsonet/keyple/plugin/flowbird/contactless/FlowbirdContactlessReaderAdapter.kt:376 | once resumed or timed out, no later event changes the continuation |
| Exchange.LateEventsDropped | flowbird-plugin/src/main/kotlin/org/calypsonet/keyple/plugin/flowbird/contact/FlowbirdContactReaderAdapter.kt:113-119 | events after a decisive one do not change what the call returns |
| Exchange.LateResponseAfterTimeout | flowbird-plugin/src/main/kotlin/org/calypsonet/keyple/plugin/flowbird/contactless/FlowbirdContactlessReaderAdapter.kt:336-345 | a response arriving after the timeout never reaches the result, which is null |
| Exchange.UnboundHandleTimesOut | flowbird-plugin/src/main/kotlin/org/calypsonet/keyple/plugin/flowbird/reader/FlowbirdReader.kt:57 | with a null service handle no value is ever offered, so unless the coroutine fails the call times out with null |
| Exchange.SingleCallback | flowbird-plugin/src/main/kotlin/org/calypsonet/keyple/plugin/flowbird/reader/FlowbirdReader.kt:106-112 | one callback makes the call return its first response, or an empty array for an empty list |
| Exchange.SecondCallbackDropped | flowbird-plugin/src/main/kotlin/org/calypsonet/keyple/plugin/flowbird/contact/FlowbirdContactReaderAdapter.kt:108-120 | a second callback cannot overwrite the first one's non-null response |
| ReaderLifecycle.SlotCases | flowbird-plugin/src/main/kotlin/org/calypsonet/keyple/plugin/flowbird/reader/FlowbirdReader.kt:212-222 | there are exactly four SAM slots |
| ReaderLifecycle.GetInstance | flowbird-plugin/src/main/kotlin/org/calypsonet/keyple/plugin/flowbird/reader/FlowbirdReader.kt:180-186 | the singleton is returned exactly when the reader is initialised and the instance present; otherwise ReaderIOException |
| ReaderLifecycle.ClearInstance | flowbird-plugin/src/main/kotlin/org/calypsonet/keyple/plugin/flowbird/reader/FlowbirdReader.kt:189-201 | without a joiner it throws a null-pointer exception and changes nothing; otherwise the joiner is unbound first, then either the singleton is dropped and the reader uninitialised, or `getInstance` throws ReaderIOException; the ATR table is untouched |
| ReaderLifecycle.ClearInstanceTwiceFails | flowbird-plugin/src/main/kotlin/org/calypsonet/keyple/plugin/flowbird/reader/FlowbirdReader.kt:189-195 | a second `clearInstance` always throws, with ReaderIOException after a successful first one |
| ReaderLifecycle.FillAtrs | flowbird-plugin/src/main/kotlin/org/calypsonet/keyple/plugin/flowbird/reader/FlowbirdReader.kt:212-222 | the four slots are read and hex-decoded in order ONE to FOUR, each stored as soon as it decodes; the first exception stops the step (no failure exactly when every slot decodes), it comes from the lowest failing slot, the failing slot and every slot after it keep their previous entry (present with the same ATR, or absent), and the rest of the lifecycle is unchanged |
| ReaderLifecycle.AtrKeysDistinct | flowbird-plugin/src/main/kotlin/org/calypsonet/keyple/plugin/flowbird/reader/FlowbirdReader.kt:159-162 | the four ATR keys are distinct, one per slot |
| ReaderLifecycle.OnCreateDone | flowbird-plugin/src/main/kotlin/org/calypsonet/keyple/plugin/flowbird/reader/FlowbirdReader.kt:282-297 | the reader is initialised and `getInstance` returns a singleton holding the bound handle, whatever `initDone` says |
| ReaderLifecycle.BindStep | flowbird-plugin/src/main/kotlin/org/calypsonet/keyple/plugin/flowbird/reader/FlowbirdReader.kt:232-251 | a pending continuation is decided by any bind event (true by `onJoined`, false by `onBindLost`, expired by the timeout) and a decided one keeps its verdict; `onJoined` creates the singleton even when its resume then throws; a resume throws IllegalStateException exactly when the continuation was already resumed, or expired and already resumed once |
| ReaderLifecycle.Resume | flowbird-plugin/src/main/kotlin/org/calypsonet/keyple/plugin/flowbird/reader/FlowbirdReader.kt:243-247 | `continuation.resume`: a waiting continuation takes the value; a cancelled one absorbs the first resume; otherwise IllegalStateException and no change |
| ReaderLifecycle.LateResumesThrow | flowbird-plugin/src/main/kotlin/org/calypsonet/keyple/plugin/flowbird/reader/FlowbirdReader.kt:239-248 | over any run of bind events only the exceptions IllegalStateException are thrown, one per resume beyond the single accepted one, or one per resume when none can be accepted any more |
| ReaderLifecycle.OnlyFirstResumeAccepted | flowbird-plugin/src/main/kotlin/org/calypsonet/keyple/plugin/flowbird/reader/FlowbirdReader.kt:232-252 | over a whole `initReader` that gets past the ATR reads, every `onJoined` or `onBindLost` but the first throws IllegalStateException into the joiner's callback |
| ReaderLifecycle.BindLostAfterJoinThrows | flowbird-plugin/src/main/kotlin/org/calypsonet/keyple/plugin/flowbird/reader/FlowbirdReader.kt:239-248 | with readable ATRs, a service loss after a successful join leaves `initReader`'s result true and throws IllegalStateException from `onBindLost` |
| ReaderLifecycle.StartedReaderIsReady | flowbird-plugin/src/main/kotlin/org/calypsonet/keyple/plugin/flowbird/reader/FlowbirdReader.kt:204-255 | when `initReader` reports true, `getInstance` succeeds whatever bind events follow |
| ReaderLifecycle.BindDecidedStays | flowbird-plugin/src/main/kotlin/org/calypsonet/keyple/plugin/flowbird/reader/FlowbirdReader.kt:239-248 | once decided, no sequence of bind events changes the verdict: a resumed continuation stays as it is and an expired one stays expired |
| ReaderLifecycle.InitResultIsFirstEvent | flowbird-plugin/src/main/kotlin/org/calypsonet/keyple/plugin/flowbird/reader/FlowbirdReader.kt:239-254 | `initReader` throws exactly when a stored ATR cannot be read; otherwise it reports true exactly when the first bind event is `onJoined`, and `onBindLost`, the timeout or silence give false |
| ReaderLifecycle.BindRunInitialises | flowbird-plugin/src/main/kotlin/org/calypsonet/keyple/plugin/flowbird/reader/FlowbirdReader.kt:239-244 | the reader ends initialised exactly when it was or some `onJoined` arrived; bind events never touch the ATR table or the joiner |
| ReaderLifecycle.InitReaderEffects | flowbird-plugin/src/main/kotlin/org/calypsonet/keyple/plugin/flowbird/reader/FlowbirdReader.kt:204-255 | after an `initReader` whose ATRs all decode, every slot holds its decoded ATR, the joiner exists, and the reader is initialised exactly when some `onJoined` arrived; when a read throws, no joiner is made, nothing is bound and no callback throws |
| ReaderLifecycle.LateJoinAfterTimeout | flowbird-plugin/src/main/kotlin/org/calypsonet/keyple/plugin/flowbird/reader/FlowbirdReader.kt:232-254 | with readable ATRs, a join after the timeout: `initReader` reports false although `getInstance` then succeeds; that late resume is absorbed, and a service loss reported after it throws IllegalStateException |
| ReaderLifecycle.ServicesHaveSixEntries | flowbird-plugin/src/main/kotlin/org/calypsonet/keyple/plugin/flowbird/reader/FlowbirdReader.kt:257-280 | with distinct service names the services map has exactly six entries, the APDU reader and the hunter among them with their intents |
| ReaderLifecycle.GetServices | flowbird-plugin/src/main/kotlin/org/calypsonet/keyple/plugin/flowbird/reader/FlowbirdReader.kt:257-280 | the keys are exactly the four literal names and the two vendor names; the hunter is bound with the "hunt/card" type, the APDU reader without a type, the two LED services with the "all/all" type and the sound service without one |
| ContactReader.New | flowbird-plugin/src/main/kotlin/org/calypsonet/keyple/plugin/flowbird/contact/FlowbirdContactReaderAdapter.kt:38-45 | construction succeeds exactly when `getInstance` does, otherwise ReaderIOException; the physical channel starts closed |
| ContactReader.NamesDistinct | flowbird-plugin/src/main/kotlin/org/calypsonet/keyple/plugin/flowbird/contact/FlowbirdContactReaderAdapter.kt:162 | a SAM reader's name is READER_NAME, "_" and the slot digit, so two readers share a name exactly when they share a slot |
| ContactReader.Name | flowbird-plugin/src/main/kotlin/org/calypsonet/keyple/plugin/flowbird/contact/FlowbirdContactReaderAdapter.kt:162 | the name starts with READER_NAME and an underscore, and what follows reads back as the slot id |
| ContactReader.IsContactless | flowbird-plugin/src/main/kotlin/org/calypsonet/keyple/plugin/flowbird/contact/FlowbirdContactReaderAdapter.kt:152-154 | a SAM reader never answers that it is contactless |
| ContactReader.OpenPhysicalChannel | flowbird-plugin/src/main/kotlin/org/calypsonet/keyple/plugin/flowbird/contact/FlowbirdContactReaderAdapter.kt:134-137 | afterwards the channel reads as open and the slot is unchanged |
| ContactReader.ClosePhysicalChannel | flowbird-plugin/src/main/kotlin/org/calypsonet/keyple/plugin/flowbird/contact/FlowbirdContactReaderAdapter.kt:129-132 | afterwards the channel reads as closed and the slot is unchanged |
| ContactReader.ChannelFlagFollowsLastCall | flowbird-plugin/src/main/kotlin/org/calypsonet/keyple/plugin/flowbird/contact/FlowbirdContactReaderAdapter.kt:129-141 | the channel flag reflects the last open or close, and opening is idempotent |
| ContactReader.CheckCardPresence | flowbird-plugin/src/main/kotlin/org/calypsonet/keyple/plugin/flowbird/contact/FlowbirdContactReaderAdapter.kt:145-149 | a SAM is present exactly when its slot holds a non-empty ATR and the service handle is non-null; ReaderIOException once the singleton is gone |
| ContactReader.PresenceFollowsLifecycle | flowbird-plugin/src/main/kotlin/org/calypsonet/keyple/plugin/flowbird/contact/FlowbirdContactReaderAdapter.kt:145-149 | after an `initReader` that joins, presence is the slot's decoded ATR being non-empty with the service bound; after `clearInstance`, ReaderIOException |
| ContactReader.OnUnregister | flowbird-plugin/src/main/kotlin/org/calypsonet/keyple/plugin/flowbird/contact/FlowbirdContactReaderAdapter.kt:157-159 | unregistering a SAM reader changes nothing |
| ContactReader.TransmitApdu | flowbird-plugin/src/main/kotlin/org/calypsonet/keyple/plugin/flowbird/contact/FlowbirdContactReaderAdapter.kt:49-85 | on the UI thread it throws IllegalStateException before anything; a null APDU gives an empty array and contacts no SAM; an exchange addressed to the slot id is issued exactly when the handle is bound; the exchange's result, null included, is returned unchanged, and an exchange exception becomes IllegalStateException |
| ContactReader.TransmitMayReturnNull | flowbird-plugin/src/main/kotlin/org/calypsonet/keyple/plugin/flowbird/contact/FlowbirdContactReaderAdapter.kt:58-65 | a timed-out SAM exchange returns null |
| ContactReader.UnboundTransmitReturnsNull | flowbird-plugin/src/main/kotlin/org/calypsonet/keyple/plugin/flowbird/reader/FlowbirdReader.kt:96-97 | with a null handle no SAM is contacted and, unless the coroutine fails, the call returns null |
| ContactlessReader.ConfigureService | flowbird-plugin/src/main/kotlin/org/calypsonet/keyple/plugin/flowbird/contactless/FlowbirdContactlessReaderAdapter.kt:147-158 | the old hunt is stopped, one new hunter is created, the listener is set and registered; tag, protocol, configuration and observer are untouched |
| ContactlessReader.StartDetection | flowbird-plugin/src/main/kotlin/org/calypsonet/keyple/plugin/flowbird/contactless/FlowbirdContactlessReaderAdapter.kt:257-261 | the current hunter is detecting and nothing else changes |
| ContactlessReader.StopDetection | flowbird-plugin/src/main/kotlin/org/calypsonet/keyple/plugin/flowbird/contactless/FlowbirdContactlessReaderAdapter.kt:263-265 | the current hunter is stopped and nothing else changes |
| ContactlessReader.Restart | flowbird-plugin/src/main/kotlin/org/calypsonet/keyple/plugin/flowbird/contactless/FlowbirdContactlessReaderAdapter.kt:131-139 | a fresh hunter wired to `handleTagResult`, detecting exactly when asked; tag, protocol, configuration, observer and framework callbacks are kept |
| ContactlessReader.New | flowbird-plugin/src/main/kotlin/org/calypsonet/keyple/plugin/flowbird/contactless/FlowbirdContactlessReaderAdapter.kt:97-113 | construction succeeds exactly when `getInstance` does; it starts with no tag, no protocol, one idle hunter wired to `handleTagResult`, the observer enabled and the channel closed |
| ContactlessReader.OnTagDiscovered | flowbird-plugin/src/main/kotlin/org/calypsonet/keyple/plugin/flowbird/contactless/FlowbirdContactlessReaderAdapter.kt:235-254 | a non-null tag becomes the current tag, marks a card discovered, makes `checkCardPresence` true and notifies one insertion when a callback is connected; a null tag changes nothing |
| ContactlessReader.HandleTagResultOf | flowbird-plugin/src/main/kotlin/org/calypsonet/keyple/plugin/flowbird/contactless/FlowbirdContactlessReaderAdapter.kt:115-128 | success is a discovery; an error throws IllegalStateException and changes nothing; removal notifies once, restarts on a fresh idle hunter and keeps the tag; the protocol is never touched |
| ContactlessReader.OnHuntCallback | flowbird-plugin/src/main/kotlin/org/calypsonet/keyple/plugin/flowbird/contactless/FlowbirdContactlessReaderAdapter.kt:131-135 | a decoded detection with the listener set is a discovery of the decoded tag; a removal with the listener set is `handleTagResult(CardRemoved)`; a detection whose payload fails to decode throws that exception back and keeps the tag without notifying; an unset listener sends no notification; an error callback changes nothing; protocol and observer are never touched |
| ContactlessReader.IsCurrentProtocol | flowbird-plugin/src/main/kotlin/org/calypsonet/keyple/plugin/flowbird/contactless/FlowbirdContactlessReaderAdapter.kt:268-270 | true exactly when a protocol is active and looking the name up gives that protocol, so only a defined key can be current |
| ContactlessReader.PresenceOnlyFromDetection | flowbird-plugin/src/main/kotlin/org/calypsonet/keyple/plugin/flowbird/contactless/FlowbirdContactlessReaderAdapter.kt:273-275 | across any run without a detection callback the current tag, and so `checkCardPresence`, is unchanged |
| ContactlessReader.IsProtocolSupported | flowbird-plugin/src/main/kotlin/org/calypsonet/keyple/plugin/flowbird/contactless/FlowbirdContactlessReaderAdapter.kt:280-283 | answers true exactly for the defined keys and never false: an undefined key throws IllegalStateException and null a null-pointer exception |
| ContactlessReader.ActivateProtocol | flowbird-plugin/src/main/kotlin/org/calypsonet/keyple/plugin/flowbird/contactless/FlowbirdContactlessReaderAdapter.kt:286-299 | succeeds exactly for a defined key: it is written under the current-protocol configuration key and becomes the current protocol, after which `isCurrentProtocol` holds for that name and no other, and nothing else changes; null throws IllegalArgumentException and an undefined key IllegalStateException |
| ContactlessReader.OnActiveProtocolChanged | flowbird-plugin/src/main/kotlin/org/calypsonet/keyple/plugin/flowbird/contactless/FlowbirdContactlessReaderAdapter.kt:102-112 | when enabled, with a protocol activated whose key is the configured current protocol, detection is re-armed on a fresh hunter keeping the tag; otherwise nothing changes |
| ContactlessReader.ActivationThenObserverRestarts | flowbird-plugin/src/main/kotlin/org/calypsonet/keyple/plugin/flowbird/contactless/FlowbirdContactlessReaderAdapter.kt:102-108 | activating a defined protocol and then observing a change re-arms detection on a fresh hunter |
| ContactlessReader.OpenPhysicalChannel | flowbird-plugin/src/main/kotlin/org/calypsonet/keyple/plugin/flowbird/contactless/FlowbirdContactlessReaderAdapter.kt:396-398 | afterwards the channel reads as open and nothing else changes |
| ContactlessReader.ClosePhysicalChannel | flowbird-plugin/src/main/kotlin/org/calypsonet/keyple/plugin/flowbird/contactless/FlowbirdContactlessReaderAdapter.kt:406-408 | afterwards the channel reads as closed and nothing else changes |
| ContactlessReader.ChannelFlagFollowsLastCall | flowbird-plugin/src/main/kotlin/org/calypsonet/keyple/plugin/flowbird/contactless/FlowbirdContactlessReaderAdapter.kt:395-408 | the channel flag reflects the last open or close, opening is idempotent, and an open then close restores every other field |
| ContactlessReader.IsContactless | flowbird-plugin/src/main/kotlin/org/calypsonet/keyple/plugin/flowbird/contactless/FlowbirdContactlessReaderAdapter.kt:386-388 | the contactless reader always answers that it is contactless |
| ContactlessReader.CardId | flowbird-plugin/src/main/kotlin/org/calypsonet/keyple/plugin/flowbird/contactless/FlowbirdContactlessReaderAdapter.kt:358 | the current tag's card id, and 0 when there is no tag or the tag has no id |
| ContactlessReader.CardIdOfDiscoveredTag | flowbird-plugin/src/main/kotlin/org/calypsonet/keyple/plugin/flowbird/contactless/FlowbirdContactlessReaderAdapter.kt:358 | after a discovery, exchanges address the discovered tag's id, or 0 when it has none |
| ContactlessReader.ConnectInsertion | flowbird-plugin/src/main/kotlin/org/calypsonet/keyple/plugin/flowbird/contactless/FlowbirdContactlessReaderAdapter.kt:437-441 | the insertion callback is installed or, with null, removed, and nothing else changes |
| ContactlessReader.ConnectRemoval | flowbird-plugin/src/main/kotlin/org/calypsonet/keyple/plugin/flowbird/contactless/FlowbirdContactlessReaderAdapter.kt:430-434 | the removal callback is installed or, with null, removed, and nothing else changes |
| ContactlessReader.ConnectedCallbacksNotify | flowbird-plugin/src/main/kotlin/org/calypsonet/keyple/plugin/flowbird/contactless/FlowbirdContactlessReaderAdapter.kt:430-441 | a discovery notifies insertion exactly when the insertion callback is connected, and a removal notifies removal exactly when the removal callback is connected |
| ContactlessReader.TransmitApdu | flowbird-plugin/src/main/kotlin/org/calypsonet/keyple/plugin/flowbird/contactless/FlowbirdContactlessReaderAdapter.kt:307-328 | a null APDU gives an empty array before the UI-thread check; on the UI thread IllegalStateException; an exchange with the current card id (0 without a tag) is issued exactly when the singleton's service handle is bound; a null result becomes an empty array and an exchange exception IllegalStateException |
| ContactlessReader.NullApduBeatsUiThread | flowbird-plugin/src/main/kotlin/org/calypsonet/keyple/plugin/flowbird/contactless/FlowbirdContactlessReaderAdapter.kt:308-316 | a null APDU on the UI thread returns an empty array |
| ContactlessReader.TimeoutGivesEmptyResponse | flowbird-plugin/src/main/kotlin/org/calypsonet/keyple/plugin/flowbird/contactless/FlowbirdContactlessReaderAdapter.kt:327 | a timed-out card exchange returns an empty array, never null |
| ContactlessReader.OnUnregister | flowbird-plugin/src/main/kotlin/org/calypsonet/keyple/plugin/flowbird/contactless/FlowbirdContactlessReaderAdapter.kt:419-427 | the observer is disabled, the hunt stopped, the listener unset and unregistered, and the reader singleton cleared; tag and protocol are kept |
| ContactlessReader.NoExchangeAfterUnregister | flowbird-plugin/src/main/kotlin/org/calypsonet/keyple/plugin/flowbird/contactless/FlowbirdContactlessReaderAdapter.kt:419-427 | after `onUnregister` has cleared the singleton's handle (`clearInstance`, FlowbirdReader.kt lines 189-198), a later `transmitApdu` (lines 307-328 of the same adapter) issues no card exchange: off the UI thread it times out into an empty array, on it IllegalStateException |
| ContactlessReader.Apply | flowbird-plugin/src/main/kotlin/org/calypsonet/keyple/plugin/flowbird/contactless/FlowbirdContactlessReaderAdapter.kt:257-299 | only hunt callbacks notify; only a detection changes the current tag; a failed activation leaves the reader unchanged; only a successful activation changes the protocol; a silenced reader stays silenced |
| ContactlessReader.ProtocolOnlyChangedByActivation | flowbird-plugin/src/main/kotlin/org/calypsonet/keyple/plugin/flowbird/contactless/FlowbirdContactlessReaderAdapter.kt:286-291 | across any run without a successful activation the current protocol is unchanged |
| ContactlessReader.NoCurrentProtocolBeforeActivation | flowbird-plugin/src/main/kotlin/org/calypsonet/keyple/plugin/flowbird/contactless/FlowbirdContactlessReaderAdapter.kt:268-270 | before any successful activation `isCurrentProtocol` is false for every name |
| ContactlessReader.SilentAfterUnregister | flowbird-plugin/src/main/kotlin/org/calypsonet/keyple/plugin/flowbird/contactless/FlowbirdContactlessReaderAdapter.kt:419-427 | a reader with the listener unset and the observer disabled sends no notification whatever events follow |
| ContactlessReader.UnregisterSilences | flowbird-plugin/src/main/kotlin/org/calypsonet/keyple/plugin/flowbird/contactless/FlowbirdContactlessReaderAdapter.kt:420-424 | after `onUnregister` no run of events notifies the framework |
| ContactlessReader.HuntErrorIsInvisible | flowbird-plugin/src/main/kotlin/org/calypsonet/keyple/plugin/flowbird/state/MyHuntEventListener.kt:116-121 | a hunt error callback changes neither the reader nor its notifications |
| ContactlessReader.DetectAfterStart | flowbird-plugin/src/main/kotlin/org/calypsonet/keyple/plugin/flowbird/contactless/FlowbirdContactlessReaderAdapter.kt:235-254 | start then a contactless detection: the card is present, its readable data is the ATR minus the prefix, one insertion is notified |
| ContactlessReader.RemovalKeepsTag | flowbird-plugin/src/main/kotlin/org/calypsonet/keyple/plugin/flowbird/contactless/FlowbirdContactlessReaderAdapter.kt:121-127 | after detection and removal: one insertion and one removal notified, the hunt stopped on a second hunter, and `checkCardPresence` still true |
| Plugin.SearchAvailableReaders | flowbird-plugin/src/main/kotlin/org/calypsonet/keyple/plugin/flowbird/FlowbirdPluginAdapter.kt:41-61 | the map is always replaced; it succeeds exactly when `getInstance` succeeds and the context is held, returning the map's values under the four SAM names and the contactless name; otherwise ReaderIOException with an empty map, or a null-pointer exception with only the SAM readers |
| Plugin.SearchIsFresh | flowbird-plugin/src/main/kotlin/org/calypsonet/keyple/plugin/flowbird/FlowbirdPluginAdapter.kt:42 | what a previous search left in the map plays no part in the next one |
| Plugin.SamNamesDistinct | flowbird-plugin/src/main/kotlin/org/calypsonet/keyple/plugin/flowbird/FlowbirdPluginAdapter.kt:44-55 | the four SAM readers are registered under four different names |
| Plugin.FiveReaders | flowbird-plugin/src/main/kotlin/org/calypsonet/keyple/plugin/flowbird/FlowbirdPluginAdapter.kt:41-60 | with the contactless name distinct from the SAM names, a successful search registers exactly five names and five readers, each slot's reader under its name |
| Plugin.ReadersUnderOwnNames | flowbird-plugin/src/main/kotlin/org/calypsonet/keyple/plugin/flowbird/FlowbirdPluginAdapter.kt:44-58 | every registered reader sits under its own `getName` |
| Plugin.SearchReader | flowbird-plugin/src/main/kotlin/org/calypsonet/keyple/plugin/flowbird/FlowbirdPluginAdapter.kt:63-69 | returns the reader exactly when the name is a key and null otherwise; a null name throws a null-pointer exception; before the first search it throws UninitializedPropertyAccessException |
| Plugin.SearchAvailableReaderNames | flowbird-plugin/src/main/kotlin/org/calypsonet/keyple/plugin/flowbird/FlowbirdPluginAdapter.kt:71-73 | the names are exactly the map's keys; before the first search UninitializedPropertyAccessException |
| Plugin.NamesFindReaders | flowbird-plugin/src/main/kotlin/org/calypsonet/keyple/plugin/flowbird/FlowbirdPluginAdapter.kt:60-73 | after a successful search a name is listed exactly when `searchReader` finds a reader for it, and that reader is among those returned |
| Plugin.GetMonitoringCycleDuration | flowbird-plugin/src/main/kotlin/org/calypsonet/keyple/plugin/flowbird/FlowbirdPluginAdapter.kt:75-77 | the monitoring cycle is 1000 ms |
| Plugin.OnUnregister | flowbird-plugin/src/main/kotlin/org/calypsonet/keyple/plugin/flowbird/FlowbirdPluginAdapter.kt:81-84 | the reader singleton is cleared; the context is dropped only when clearing succeeded |
| Plugin.UnregisterAfterContactlessUnregisterFails | flowbird-plugin/src/main/kotlin/org/calypsonet/keyple/plugin/flowbird/FlowbirdPluginAdapter.kt:82 | after the contactless reader is unregistered, unregistering the plugin throws ReaderIOException and keeps the context |
| PluginFactory.Init | flowbird-plugin/src/main/kotlin/org/calypsonet/keyple/plugin/flowbird/FlowbirdPluginFactoryAdapter.kt:28-48 | an exception from `initReader` escapes `init` before the plugin is assigned; otherwise the plugin is assigned whatever the outcome, and the factory itself is returned exactly when `initReader` reports true, otherwise ReaderIOException |
| PluginFactory.GetPlugin | flowbird-plugin/src/main/kotlin/org/calypsonet/keyple/plugin/flowbird/FlowbirdPluginFactoryAdapter.kt:52 | the plugin assigned by `init`, UninitializedPropertyAccessException before it |
| PluginFactory.InitSucceedsOnJoin | flowbird-plugin/src/main/kotlin/org/calypsonet/keyple/plugin/flowbird/FlowbirdPluginFactoryAdapter.kt:34-47 | `init` succeeds exactly when the stored ATRs decode and the first bind event is `onJoined`; with readable ATRs a plugin is available afterwards even when it fails, and without them `getPlugin` still throws UninitializedPropertyAccessException |
| PluginFactory.JoinThenFiveReaders | flowbird-plugin/src/main/kotlin/org/calypsonet/keyple/plugin/flowbird/FlowbirdPluginAdapter.kt:41-60 | a first start with readable ATRs that joins: the factory succeeds and its plugin finds five readers |

## Left out

- Coroutines, threads and timers are not modelled. This covers `runBlocking`, `GlobalScope.launch`, `Channel` and the exception handler. Each call's events arrive as an explicit sequence, so concurrent calls to one reader (which share and overwrite one channel field) are not modelled, and no per-reader single-flight is claimed.
- `suspendCoroutineWithTimeout` is not part of this model. A timeout is taken to cancel the wait and yield null, which matches `executeApduAsync` returning a nullable array. The continuation is taken to be a cancellable one: after cancellation it absorbs one resume and throws IllegalStateException on any further one.
- The result handler is only ever called with a value or with an exception, never both, so `Exchange.Delivery` has those two shapes only.
- A `RemoteException` from the vendor exchange is only logged. It is modelled as no callback ever arriving.
- The vendor services are abstract state: the hunters, `BindJoiner`, the configuration, state and observer helpers, and `IApduReader`. Hunters are a count of hunters created, a hunting flag and a listener-registered flag. The service handle is a bound/unbound flag. The configuration is a string map.
- The hunter-specific configuration steps are not modelled (`configureCompetitiveHunter`, `configureAlternateHunter`, `destroyHunter`, `setEventListener`). Their only effect the model keeps is which listener is registered.
- The vendor's `HuntConstants` values and `StringUtils.bytesToHexString` are parameters (`HuntListener.Vendor`). So are READER_NAME, PLUGIN_NAME, the service names and the APDU reader's name. The files defining them are not part of this model; only the literal "OPENPAY" is known.
- `SamSlot` is not part of this model. Its slot ids are taken to be 1 to 4, in slot order.
- ReaderLifecycle.GetInstance: the singleton is held through a `WeakReference` (FlowbirdReader.kt lines 176 and 285), and nothing holds it strongly between `initReader` returning and the first adapter being built. A garbage collection in that window makes `getInstance` throw ReaderIOException while the reader is still marked initialised. The model holds the singleton strongly, because collection is a runtime event outside the code's logic, so this failure is not modelled.
- The two adapters hold the reader singleton they fetched at construction. The model reads the current lifecycle instead, so a re-initialised singleton shadowing an old one is not modelled.
- ReaderLifecycle.FillAtrs: reading the persisted state (`StateHelper.getAsString`) and hex-decoding it (`HexUtil.toByteArray`) are one abstract parameter, `AtrSource`, that gives each ATR key either bytes or an exception. Which stored strings make them throw, and which exception they throw, are not part of this model. That such an exception escapes `initReader` and `init` before the plugin is assigned is modelled.
- Exchange.Step: the ClosedSendChannelException that a late `onExchangeDone` throws goes back into the vendor's service, whose reaction is not part of this model.
- HuntListener.Decode: the ATR string's length and its 14-character prefix are counted in Unicode characters here, while Kotlin's `substring` counts UTF-16 code units. The ATR is taken to be BMP text, as the hex strings the hunt produces are, so the two counts agree. An ATR holding supplementary-plane characters would be split differently, and is not modelled.
- Exchange.Offered: the vendor hands responses as an untyped list, and the cast of its first element to a byte array (FlowbirdReader.kt lines 69 and 108) could throw ClassCastException. The model types the responses as optional byte arrays, so that failure is not modelled.
- `initDone` from `onJoined` is only logged, and is ignored here as well.
- The UI is not modelled: the UI manager, LEDs, sound, text display, `loadResources`, `reloadUiManager` and the `display…`/`updateUi` helpers.
- ContactlessReader.StartDetection: `onStartDetection` also shows the UI's waiting screen, and that helper fetches the singleton through `getInstance`. With the UI left out, the ReaderIOException it throws once the singleton has been cleared is not modelled. That exception comes after the hunt has already started.
- The supporting code is not modelled: `FileUtils`, the example application and the factory provider wrapper.
- UI-thread detection is an input: `BackgroundThreadExecutor` is not modelled and `isUiThread` is a boolean argument of `transmitApdu`.
- Logging, `dumpBundle`, wall-clock timestamps and APDU durations, and the 500 ms pause in `onError` are not modelled.
- `getPowerOnData` is not modelled. The contact reader's needs hex encoding of the slot's ATR, which is left out, so ATRs are opaque. The contactless reader's returns the empty string whatever the state.
- Name and version getters that return a constant defined outside the modelled files are not modelled: the contactless reader's `getName` (READER_NAME), the plugin's `getName` (PLUGIN_NAME, FlowbirdPluginAdapter.kt line 79), and the factory's `getPluginName`, `getCommonApiVersion` and `getPluginApiVersion` (FlowbirdPluginFactoryAdapter.kt lines 50-56).
- `deactivateProtocol` is not modelled: it does nothing. The commented-out removal-wait methods are not modelled either.
- The context's weak reference is a "context held" flag, and activity and file lists passed to `init` are not modelled.
- Kotlin `Byte` is signed; bytes here are 0..255, since only equality of bytes is used.
