/** The process-wide reader binding (the companion object of FlowbirdReader):
    the SAM ATR table filled before binding, the asynchronous bind to the
    vendor services with its result mapping, the singleton behind
    `getInstance`, and its teardown by `clearInstance`. */
module ReaderLifecycle {
  import opened Base

  /** The four SAM slots of the contact reader bank. */
  datatype SamSlot = ONE | TWO | THREE | FOUR

  function Slots(): seq<SamSlot> {
    [ONE, TWO, THREE, FOUR]
  }

  lemma SlotCases(s: SamSlot)
    ensures s == ONE || s == TWO || s == THREE || s == FOUR
  {
  }

  /** The slot id the service addresses a SAM by. */
  function SlotId(s: SamSlot): int {
    match s
    case ONE => 1
    case TWO => 2
    case THREE => 3
    case FOUR => 4
  }

  /** The persisted-state key holding a slot's ATR. */
  function AtrKey(s: SamSlot): string {
    match s
    case ONE => "/contactless/sam1/atr"
    case TWO => "/contactless/sam2/atr"
    case THREE => "/contactless/sam3/atr"
    case FOUR => "/contactless/sam4/atr"
  }

  /** Timeout of the bind sequence, in milliseconds. */
  const INIT_TIMEOUT_MS: nat := 2000

  /** The `FlowbirdReader` singleton; `readerInstance` tells whether its APDU
      reader service handle is non-null. */
  datatype Instance = Instance(readerInstance: bool)

  /** The `BindJoiner` holding the service bindings. */
  datatype Joiner = Joiner(bound: bool)

  /** The companion object's state. The ATR table maps a slot to the ATR
      decoded from persisted state; a slot not yet filled is absent, which
      the map's `get` reports as null. */
  datatype Lifecycle = Lifecycle(
    isInitied: bool,
    uniqueInstance: Option<Instance>,
    joiner: Option<Joiner>,
    atrContainer: map<SamSlot, Bytes>)

  /** The state when the process starts. */
  const Unloaded: Lifecycle := Lifecycle(false, Null, Null, map[])

  /** `getInstance`: the singleton, or ReaderIOException unless the reader is
      initialised and the instance present. */
  function GetInstance(l: Lifecycle): (r: Result<Instance>)
    ensures r.Ok? <==> l.isInitied && l.uniqueInstance.Some?
    ensures r.Ok? ==> r.value == l.uniqueInstance.value
    ensures r.Throws? ==> r.error == ReaderIO
  {
    if !l.isInitied || l.uniqueInstance.Null? then Throws(ReaderIO) else Ok(l.uniqueInstance.value)
  }

  /** Whether the APDU reader handle held by the singleton is non-null. */
  predicate HandleBound(l: Lifecycle) {
    l.uniqueInstance.Some? && l.uniqueInstance.value.readerInstance
  }

  datatype Cleared = Cleared(lifecycle: Lifecycle, outcome: Result<()>)

  /** `clearInstance`: unbind the joiner (a missing joiner is a null
      dereference), then through `getInstance` drop the handle and the
      singleton and mark the reader uninitialised. */
  function ClearInstance(l: Lifecycle): (r: Cleared)
    ensures l.joiner.Null? ==> r == Cleared(l, Throws(NullPointer))
    ensures l.joiner.Some? ==> r.lifecycle.joiner == Some(Joiner(false))
    ensures r.outcome.Ok? <==> l.joiner.Some? && GetInstance(l).Ok?
    ensures r.outcome.Ok? ==>
      && !r.lifecycle.isInitied
      && r.lifecycle.uniqueInstance.Null?
      && GetInstance(r.lifecycle).Throws?
      && !HandleBound(r.lifecycle)
    ensures r.outcome.Throws? ==>
      r.lifecycle.isInitied == l.isInitied && r.lifecycle.uniqueInstance == l.uniqueInstance
    ensures r.lifecycle.atrContainer == l.atrContainer
  {
    if l.joiner.Null? then Cleared(l, Throws(NullPointer))
    else
      var unbound := l.(joiner := Some(Joiner(false)));
      match GetInstance(unbound)
      case Throws(e) => Cleared(unbound, Throws(e))
      case Ok(_) => Cleared(unbound.(uniqueInstance := Null, isInitied := false), Ok(()))
  }

  /** `clearInstance` cannot be repeated: the second call always throws. */
  lemma ClearInstanceTwiceFails(l: Lifecycle)
    ensures ClearInstance(ClearInstance(l).lifecycle).outcome.Throws?
    ensures ClearInstance(l).outcome.Ok? ==>
      ClearInstance(ClearInstance(l).lifecycle).outcome == Throws(ReaderIO)
  {
  }

  /** Reading one key of persisted state and hex-decoding the string read:
      the bytes, or the exception either step throws. */
  type AtrSource = string -> Result<Bytes>

  /** Whether all four stored ATRs read and decode without an exception. */
  predicate AtrsReadable(read: AtrSource) {
    forall s: SamSlot :: read(AtrKey(s)).Ok?
  }

  /** Whether the table holds the slot's ATR as read and decoded. */
  predicate Decoded(l: Lifecycle, read: AtrSource, s: SamSlot) {
    read(AtrKey(s)).Ok? && s in l.atrContainer && l.atrContainer[s] == read(AtrKey(s)).value
  }

  /** Whether a slot's entry, present or absent, is the same in both tables. */
  predicate Kept(before: map<SamSlot, Bytes>, after: map<SamSlot, Bytes>, s: SamSlot) {
    && (s in after <==> s in before)
    && (s in before ==> after[s] == before[s])
  }

  /** The ATR table after the first step of `initReader`, and the exception
      that interrupted it, if any. */
  datatype Filled = Filled(lifecycle: Lifecycle, failure: Option<Exception>)

  /** The first step of `initReader`: read and decode the four ATRs in slot
      order, storing each one as soon as it is decoded; the first exception
      stops the step, keeping the slots already stored. */
  function FillAtrs(l: Lifecycle, read: AtrSource): (r: Filled)
    ensures r.failure.Null? <==> AtrsReadable(read)
    ensures r.failure.Some? ==> exists s: SamSlot ::
      && read(AtrKey(s)) == Throws(r.failure.value)
      && forall t: SamSlot :: SlotId(t) < SlotId(s) ==> read(AtrKey(t)).Ok?
    ensures r.failure.Null? ==> forall s: SamSlot :: Decoded(r.lifecycle, read, s)
    ensures read(AtrKey(ONE)).Ok? ==> Decoded(r.lifecycle, read, ONE)
    ensures read(AtrKey(ONE)).Ok? && read(AtrKey(TWO)).Ok? ==> Decoded(r.lifecycle, read, TWO)
    ensures read(AtrKey(ONE)).Ok? && read(AtrKey(TWO)).Ok? && read(AtrKey(THREE)).Ok? ==>
      Decoded(r.lifecycle, read, THREE)
    ensures forall s: SamSlot :: read(AtrKey(s)).Throws? ==>
      (s in r.lifecycle.atrContainer <==> s in l.atrContainer)
    ensures r.failure.Some? ==> forall s: SamSlot ::
      (exists t: SamSlot :: SlotId(t) <= SlotId(s) && read(AtrKey(t)).Throws?) ==>
      Kept(l.atrContainer, r.lifecycle.atrContainer, s)
    ensures r.lifecycle.isInitied == l.isInitied && r.lifecycle.uniqueInstance == l.uniqueInstance
    ensures r.lifecycle.joiner == l.joiner
  {
    match read(AtrKey(ONE))
    case Throws(e) => Filled(l, Some(e))
    case Ok(a1) =>
      var l1 := l.(atrContainer := l.atrContainer[ONE := a1]);
      match read(AtrKey(TWO))
      case Throws(e) => Filled(l1, Some(e))
      case Ok(a2) =>
        var l2 := l1.(atrContainer := l1.atrContainer[TWO := a2]);
        match read(AtrKey(THREE))
        case Throws(e) => Filled(l2, Some(e))
        case Ok(a3) =>
          var l3 := l2.(atrContainer := l2.atrContainer[THREE := a3]);
          match read(AtrKey(FOUR))
          case Throws(e) => Filled(l3, Some(e))
          case Ok(a4) =>
            var table := l3.atrContainer[FOUR := a4];
            var filled := l3.(atrContainer := table);
            assert forall s: SamSlot :: Decoded(filled, read, s) by {
              forall s: SamSlot ensures Decoded(filled, read, s) {
                SlotCases(s);
              }
            }
            Filled(filled, Null)
  }

  /** The four ATRs come from four distinct keys. */
  lemma AtrKeysDistinct(s: SamSlot, t: SamSlot)
    ensures AtrKey(s) == AtrKey(t) <==> s == t
  {
    if s != t {
      assert AtrKey(s)[16] != AtrKey(t)[16];
    }
  }

  /** A callback of the `BindJoiner`, or the timeout of the bind sequence. */
  datatype BindEvent =
    | Joined(initDone: bool, apduReaderBound: bool)  // `onJoined`; whether the APDU reader service was found
    | BindLost                                       // `onBindLost`
    | InitTimedOut

  /** The continuation `initReader` waits on, a cancellable one: the timeout
      cancels it, after which one resume is still absorbed silently
      (`lateResumed` records it); any further resume, like any resume of an
      already resumed continuation, throws IllegalStateException. */
  datatype Bind = Pending | Resumed(started: bool) | Expired(lateResumed: bool)

  /** The result `initReader` reads from a continuation: true only when it
      was resumed with true before the timeout. */
  function Verdict(c: Bind): bool {
    c.Resumed? && c.started
  }

  /** Whether a resume of the continuation is accepted without an exception. */
  predicate AcceptsResume(c: Bind) {
    c.Pending? || c == Expired(false)
  }

  /** `onCreateDone`: a fresh singleton holding the APDU reader handle, and
      the reader marked initialised, whether or not every service was bound. */
  function OnCreateDone(l: Lifecycle, initDone: bool, apduReaderBound: bool): (r: Lifecycle)
    ensures r.isInitied && GetInstance(r) == Ok(Instance(apduReaderBound))
    ensures r.atrContainer == l.atrContainer && r.joiner == l.joiner
  {
    l.(uniqueInstance := Some(Instance(apduReaderBound)), isInitied := true)
  }

  datatype Binding = Binding(lifecycle: Lifecycle, continuation: Bind)

  /** The effect of one bind event, with the exception thrown back into the
      joiner's callback, if any. */
  datatype BindReaction = BindReaction(binding: Binding, thrown: Option<Exception>)

  /** One bind event. `onJoined` creates the singleton before it resumes, so
      it does so even when the resume then throws; `onJoined` and
      `onBindLost` resume unguarded, so only the first resume is accepted
      and every later one throws IllegalStateException; the timeout only
      cancels a pending continuation. */
  function BindStep(b: Binding, e: BindEvent): (r: BindReaction)
    ensures b.continuation.Pending? ==> !r.binding.continuation.Pending?
    ensures b.continuation.Pending? && e.Joined? ==> r.binding.continuation == Resumed(true)
    ensures b.continuation.Pending? && e.BindLost? ==> r.binding.continuation == Resumed(false)
    ensures b.continuation.Resumed? ==> r.binding.continuation == b.continuation
    ensures b.continuation.Expired? ==> r.binding.continuation.Expired?
    ensures r.thrown.Some? <==> !e.InitTimedOut? && !AcceptsResume(b.continuation)
    ensures r.thrown.Some? ==> r.thrown.value == IllegalState
    ensures e.Joined? ==> GetInstance(r.binding.lifecycle) == Ok(Instance(e.apduReaderBound))
    ensures !e.Joined? ==> r.binding.lifecycle == b.lifecycle
    ensures r.binding.lifecycle.atrContainer == b.lifecycle.atrContainer
    ensures r.binding.lifecycle.joiner == b.lifecycle.joiner
  {
    match e
    case Joined(initDone, apduReaderBound) => Resume(OnCreateDone(b.lifecycle, initDone, apduReaderBound), b.continuation, true)
    case BindLost => Resume(b.lifecycle, b.continuation, false)
    case InitTimedOut =>
      BindReaction(b.(continuation := if b.continuation.Pending? then Expired(false) else b.continuation), Null)
  }

  /** `continuation.resume(value)` on a continuation in state `c`. */
  function Resume(l: Lifecycle, c: Bind, value: bool): (r: BindReaction)
    ensures r.binding.lifecycle == l
    ensures r.thrown.Some? <==> !AcceptsResume(c)
    ensures c.Pending? ==> r.binding.continuation == Resumed(value) && r.thrown == Null
  {
    match c
    case Pending => BindReaction(Binding(l, Resumed(value)), Null)
    case Expired(false) => BindReaction(Binding(l, Expired(true)), Null)
    case _ => BindReaction(Binding(l, c), Some(IllegalState))
  }

  /** The binding after a run of bind events, and the exceptions thrown back
      into the joiner's callbacks, in order. */
  datatype BindTrace = BindTrace(binding: Binding, thrown: seq<Exception>)

  function BindRun(b: Binding, events: seq<BindEvent>): BindTrace
    decreases |events|
  {
    if |events| == 0 then BindTrace(b, [])
    else
      var step := BindStep(b, events[0]);
      var rest := BindRun(step.binding, events[1..]);
      BindTrace(rest.binding, (if step.thrown.Some? then [step.thrown.value] else []) + rest.thrown)
  }

  /** The number of resumes (`onJoined` or `onBindLost`) among the events. */
  function ResumeCount(events: seq<BindEvent>): nat
    decreases |events|
  {
    if |events| == 0 then 0
    else (if events[0].InitTimedOut? then 0 else 1) + ResumeCount(events[1..])
  }

  /** What `initReader` leaves behind: the companion object's state, what
      the call returns or throws, and what the joiner's callbacks threw. */
  datatype Initialised = Initialised(lifecycle: Lifecycle, outcome: Result<bool>, thrown: seq<Exception>)

  /** The binding `initReader` waits on once the ATR table is filled: the
      joiner created and bound, the continuation pending. */
  function Prepared(l: Lifecycle, read: AtrSource): Binding {
    Binding(FillAtrs(l, read).lifecycle.(joiner := Some(Joiner(true))), Pending)
  }

  /** `initReader`: fill the ATR table, whose exception escapes before any
      binding; otherwise create and bind the joiner, then wait for the first
      bind event; a timeout yields null, mapped to false. The events include
      those arriving after `initReader` returned. */
  function InitReader(l: Lifecycle, read: AtrSource, events: seq<BindEvent>): Initialised {
    var filled := FillAtrs(l, read);
    match filled.failure
    case Some(e) => Initialised(filled.lifecycle, Throws(e), [])
    case Null =>
      var t := BindRun(Prepared(l, read), events);
      Initialised(t.binding.lifecycle, Ok(Verdict(t.binding.continuation)), t.thrown)
  }

  /** A decided continuation keeps its verdict: a resumed one stays as it
      is, an expired one stays expired. */
  lemma {:induction false} BindDecidedStays(b: Binding, events: seq<BindEvent>)
    requires !b.continuation.Pending?
    ensures b.continuation.Resumed? ==> BindRun(b, events).binding.continuation == b.continuation
    ensures b.continuation.Expired? ==> BindRun(b, events).binding.continuation.Expired?
    decreases |events|
  {
    if |events| > 0 {
      BindDecidedStays(BindStep(b, events[0]).binding, events[1..]);
    }
  }

  /** `initReader` throws exactly when an ATR cannot be read or decoded;
      otherwise the first bind event decides it: true exactly when it is
      `onJoined`, whatever `initDone` says; `onBindLost`, a timeout, or no
      event at all give false. */
  lemma InitResultIsFirstEvent(l: Lifecycle, read: AtrSource, events: seq<BindEvent>)
    ensures InitReader(l, read, events).outcome.Throws? <==> !AtrsReadable(read)
    ensures InitReader(l, read, events).outcome == Ok(true) <==>
      AtrsReadable(read) && |events| > 0 && events[0].Joined?
  {
    var prepared := Prepared(l, read);
    if |events| > 0 {
      BindDecidedStays(BindStep(prepared, events[0]).binding, events[1..]);
    }
  }

  /** Exactly one resume is accepted: from a continuation that still accepts
      one, every resume after the first throws IllegalStateException; from
      one that does not, every resume throws. Timeouts never throw. */
  lemma {:induction false} LateResumesThrow(b: Binding, events: seq<BindEvent>)
    ensures forall x :: x in BindRun(b, events).thrown ==> x == IllegalState
    ensures |BindRun(b, events).thrown| ==
      if !AcceptsResume(b.continuation) then ResumeCount(events)
      else if ResumeCount(events) == 0 then 0
      else ResumeCount(events) - 1
    decreases |events|
  {
    if |events| > 0 {
      var step := BindStep(b, events[0]);
      LateResumesThrow(step.binding, events[1..]);
      if !events[0].InitTimedOut? && AcceptsResume(b.continuation) {
        assert !AcceptsResume(step.binding.continuation);
      }
    }
  }

  /** Over a whole `initReader`, the joiner's callbacks throw
      IllegalStateException once for every resume but the first. */
  lemma OnlyFirstResumeAccepted(l: Lifecycle, read: AtrSource, events: seq<BindEvent>)
    ensures forall x :: x in InitReader(l, read, events).thrown ==> x == IllegalState
    ensures AtrsReadable(read) ==>
      |InitReader(l, read, events).thrown| == if ResumeCount(events) == 0 then 0 else ResumeCount(events) - 1
  {
    var prepared := Prepared(l, read);
    LateResumesThrow(prepared, events);
  }

  /** Events never uninitialise the reader, and every `onJoined` initialises it. */
  lemma {:induction false} BindRunInitialises(b: Binding, events: seq<BindEvent>)
    ensures BindRun(b, events).binding.lifecycle.isInitied <==>
      b.lifecycle.isInitied || exists i :: 0 <= i < |events| && events[i].Joined?
    ensures BindRun(b, events).binding.lifecycle.atrContainer == b.lifecycle.atrContainer
    ensures BindRun(b, events).binding.lifecycle.joiner == b.lifecycle.joiner
    ensures b.lifecycle.uniqueInstance.Some? ==> BindRun(b, events).binding.lifecycle.uniqueInstance.Some?
    decreases |events|
  {
    if |events| > 0 {
      var next := BindStep(b, events[0]).binding;
      BindRunInitialises(next, events[1..]);
      if exists i :: 0 <= i < |events[1..]| && events[1..][i].Joined? {
        var i :| 0 <= i < |events[1..]| && events[1..][i].Joined?;
        assert events[i + 1].Joined?;
      }
      if exists i :: 0 <= i < |events| && events[i].Joined? {
        var i :| 0 <= i < |events| && events[i].Joined?;
        if i > 0 {
          assert events[1..][i - 1].Joined?;
        }
      }
    }
  }

  /** After an `initReader` that reads every ATR, the ATR table holds every
      slot's decoded ATR and the joiner is bound; the reader is initialised
      exactly when some `onJoined` arrived, even one arriving after the
      timeout made `initReader` return false. When an ATR cannot be read, no
      joiner is created, no bind event has any effect and the reader is left
      as initialised as it was. */
  lemma InitReaderEffects(l: Lifecycle, read: AtrSource, events: seq<BindEvent>)
    ensures AtrsReadable(read) ==> forall s: SamSlot :: (s in InitReader(l, read, events).lifecycle.atrContainer &&
      InitReader(l, read, events).lifecycle.atrContainer[s] == read(AtrKey(s)).value)
    ensures AtrsReadable(read) ==> InitReader(l, read, events).lifecycle.joiner == Some(Joiner(true))
    ensures AtrsReadable(read) ==> (InitReader(l, read, events).lifecycle.isInitied <==>
      l.isInitied || exists i :: 0 <= i < |events| && events[i].Joined?)
    ensures !AtrsReadable(read) ==>
      && InitReader(l, read, events).lifecycle.joiner == l.joiner
      && InitReader(l, read, events).lifecycle.isInitied == l.isInitied
      && InitReader(l, read, events).lifecycle.uniqueInstance == l.uniqueInstance
      && InitReader(l, read, events).thrown == []
  {
    var prepared := Prepared(l, read);
    BindRunInitialises(prepared, events);
  }

  /** When `initReader` reports true, `getInstance` succeeds afterwards,
      whatever bind events follow. */
  lemma StartedReaderIsReady(l: Lifecycle, read: AtrSource, events: seq<BindEvent>)
    ensures InitReader(l, read, events).outcome == Ok(true) ==> GetInstance(InitReader(l, read, events).lifecycle).Ok?
  {
    InitResultIsFirstEvent(l, read, events);
    if |events| > 0 && events[0].Joined? {
      var prepared := Prepared(l, read);
      var b1 := BindStep(prepared, events[0]).binding;
      BindRunInitialises(b1, events[1..]);
    }
  }

  /** A join that arrives after the timeout: `initReader` reports false, yet
      the singleton exists and `getInstance` succeeds; that late resume is
      absorbed, while a service loss reported after it throws. */
  lemma LateJoinAfterTimeout(l: Lifecycle, read: AtrSource, apduReaderBound: bool)
    requires AtrsReadable(read)
    ensures InitReader(l, read, [InitTimedOut, Joined(true, apduReaderBound)]).outcome == Ok(false)
    ensures GetInstance(InitReader(l, read, [InitTimedOut, Joined(true, apduReaderBound)]).lifecycle)
            == Ok(Instance(apduReaderBound))
    ensures InitReader(l, read, [InitTimedOut, Joined(true, apduReaderBound)]).thrown == []
    ensures InitReader(l, read, [InitTimedOut, Joined(true, apduReaderBound), BindLost]).thrown == [IllegalState]
  {
    var events := [InitTimedOut, Joined(true, apduReaderBound)];
    var prepared := Prepared(l, read);
    var b1 := BindStep(prepared, events[0]).binding;
    var b2 := BindStep(b1, events[1]).binding;
    assert events[1..][1..] == [];
    assert BindRun(b1, events[1..]) == BindTrace(b2, []);
    assert BindRun(prepared, events) == BindTrace(b2, []);
    var longer := events + [BindLost];
    var b3 := BindStep(b2, BindLost);
    assert longer[1..][1..][1..] == [];
    assert longer[1..][1..] == [BindLost];
    assert BindRun(b2, [BindLost]) == BindTrace(b3.binding, [IllegalState]);
    assert longer[1..] == [Joined(true, apduReaderBound), BindLost];
    assert BindRun(b1, longer[1..]) == BindTrace(b3.binding, [IllegalState]);
    assert BindRun(prepared, longer) == BindTrace(b3.binding, [IllegalState]);
  }

  /** The service lost after a successful join: `initReader` still reports
      true, and the `onBindLost` callback throws IllegalStateException. */
  lemma BindLostAfterJoinThrows(l: Lifecycle, read: AtrSource, initDone: bool, apduReaderBound: bool)
    requires AtrsReadable(read)
    ensures InitReader(l, read, [Joined(initDone, apduReaderBound), BindLost]).outcome == Ok(true)
    ensures InitReader(l, read, [Joined(initDone, apduReaderBound), BindLost]).thrown == [IllegalState]
  {
    var events := [Joined(initDone, apduReaderBound), BindLost];
    var prepared := Prepared(l, read);
    var b1 := BindStep(prepared, events[0]).binding;
    var b2 := BindStep(b1, events[1]).binding;
    assert events[1..][1..] == [];
    assert BindRun(b1, events[1..]) == BindTrace(b2, [IllegalState]);
    assert BindRun(prepared, events) == BindTrace(b2, [IllegalState]);
  }

  /** The intent action of a bound service; the vendor's action strings are
      not part of this model, except the APDU reader's literal
      "com.parkeon.services.card.apdu". */
  datatype ServiceAction = LedsPattern | Leds | AuthenticationService | SoundService | CardApdu | HuntService

  datatype Intent = Intent(action: ServiceAction, mimeType: Option<string>)

  /** The names `Constants.READER_CLESS` and `Constants.HUNTER_NAME`, whose
      values are not part of this model. */
  datatype ServiceNames = ServiceNames(readerCless: string, hunterName: string)

  const LED_PATTERNS_TYPE_ALL: string := "all/all"

  /** `getServices`: the services the joiner binds, by name. */
  function GetServices(n: ServiceNames): (r: map<string, Intent>)
    ensures forall k :: k in r <==> k in {"led_patterns", "leds", "authentication", "sound", n.readerCless, n.hunterName}
    ensures r[n.hunterName] == Intent(HuntService, Some("hunt/card"))
    ensures n.readerCless != n.hunterName ==> r[n.readerCless] == Intent(CardApdu, Null)
    ensures "sound" !in {n.readerCless, n.hunterName} ==> r["sound"].mimeType.Null?
    ensures forall k :: k in r && r[k].action in {LedsPattern, Leds} ==> r[k].mimeType == Some(LED_PATTERNS_TYPE_ALL)
  {
    map[
      "led_patterns" := Intent(LedsPattern, Some(LED_PATTERNS_TYPE_ALL)),
      "leds" := Intent(Leds, Some(LED_PATTERNS_TYPE_ALL)),
      "authentication" := Intent(AuthenticationService, Some("agent/maintenance")),
      "sound" := Intent(SoundService, Null)
    ][n.readerCless := Intent(CardApdu, Null)]
     [n.hunterName := Intent(HuntService, Some("hunt/card"))]
  }

  /** The two vendor names differ from each other and from the four literal names. */
  predicate DistinctServiceNames(n: ServiceNames) {
    && n.readerCless != n.hunterName
    && n.readerCless !in {"led_patterns", "leds", "authentication", "sound"}
    && n.hunterName !in {"led_patterns", "leds", "authentication", "sound"}
  }

  /** With distinct names the services map has exactly six entries, the APDU
      reader under READER_CLESS and the hunter under HUNTER_NAME. */
  lemma ServicesHaveSixEntries(n: ServiceNames)
    requires DistinctServiceNames(n)
    ensures GetServices(n).Keys == {"led_patterns", "leds", "authentication", "sound", n.readerCless, n.hunterName}
    ensures |GetServices(n)| == 6
    ensures GetServices(n)[n.readerCless].action == CardApdu
    ensures GetServices(n)[n.hunterName].action == HuntService
  {
    var keys := {"led_patterns", "leds", "authentication", "sound", n.readerCless, n.hunterName};
    assert GetServices(n).Keys == keys;
    var four: set<string> := {"led_patterns", "leds", "authentication", "sound"};
    assert |four| == 4;
    assert |four + {n.readerCless}| == 5;
    assert keys == four + {n.readerCless} + {n.hunterName};
  }
}
