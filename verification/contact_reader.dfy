/** The contact reader of one SAM slot (FlowbirdContactReaderAdapter). */
module ContactReader {
  import opened Base
  import opened ReaderLifecycle
  import opened Exchange

  /** Timeout of one SAM exchange, in milliseconds. */
  const APDU_TIMEOUT_MS: nat := 1000

  /** The adapter's own state: its slot and the physical-channel flag. */
  datatype ContactReader = ContactReader(samSlot: SamSlot, physicalChannelOpen: bool)

  /** The constructor: it fetches the reader singleton, so it fails while the
      reader is not initialised. The physical channel starts closed. */
  function New(l: Lifecycle, slot: SamSlot): (r: Result<ContactReader>)
    ensures r.Ok? <==> GetInstance(l).Ok?
    ensures r.Ok? ==> r.value.samSlot == slot && !IsPhysicalChannelOpen(r.value)
    ensures r.Throws? ==> r.error == ReaderIO
  {
    match GetInstance(l)
    case Throws(e) => Throws(e)
    case Ok(_) => Ok(ContactReader(slot, false))
  }

  /** `getName`: READER_NAME, an underscore and the slot id. READER_NAME is
      not part of this model and is a parameter. */
  function Name(readerName: string, r: ContactReader): (n: string)
    ensures |n| > |readerName| + 1 && n[..|readerName| + 1] == readerName + "_"
    ensures DigitsValue(n[|readerName| + 1..]) == SlotId(r.samSlot)
  {
    readerName + "_" + DecimalString(SlotId(r.samSlot))
  }

  /** The four SAM readers have four distinct names, each ending in its slot digit. */
  lemma NamesDistinct(readerName: string, r: ContactReader, q: ContactReader)
    ensures Name(readerName, r) == Name(readerName, q) <==> r.samSlot == q.samSlot
    ensures |Name(readerName, r)| == |readerName| + 2
    ensures Name(readerName, r)[..|readerName| + 1] == readerName + "_"
    ensures Name(readerName, r)[|readerName| + 1] == ('0' as int + SlotId(r.samSlot)) as char
  {
    var n := Name(readerName, r);
    var m := Name(readerName, q);
    assert n[..|readerName| + 1] == readerName + "_";
    if n == m {
      assert n[|readerName| + 1] == m[|readerName| + 1];
      SlotCases(r.samSlot);
      SlotCases(q.samSlot);
    }
  }

  function OpenPhysicalChannel(r: ContactReader): (q: ContactReader)
    ensures IsPhysicalChannelOpen(q) && q.samSlot == r.samSlot
  {
    r.(physicalChannelOpen := true)
  }

  function ClosePhysicalChannel(r: ContactReader): (q: ContactReader)
    ensures !IsPhysicalChannelOpen(q) && q.samSlot == r.samSlot
  {
    r.(physicalChannelOpen := false)
  }

  predicate IsPhysicalChannelOpen(r: ContactReader) {
    r.physicalChannelOpen
  }

  /** The channel flag follows the last open or close. */
  lemma ChannelFlagFollowsLastCall(r: ContactReader)
    ensures IsPhysicalChannelOpen(OpenPhysicalChannel(ClosePhysicalChannel(r)))
    ensures !IsPhysicalChannelOpen(ClosePhysicalChannel(OpenPhysicalChannel(r)))
    ensures OpenPhysicalChannel(OpenPhysicalChannel(r)) == OpenPhysicalChannel(r)
  {
  }

  /** `checkCardPresence`: a SAM is present exactly when its slot has a
      non-empty ATR and the reader singleton holds a service handle; the
      call itself fails with ReaderIOException once the singleton is gone. */
  function CheckCardPresence(l: Lifecycle, r: ContactReader): (present: Result<bool>)
    ensures present.Throws? <==> GetInstance(l).Throws?
    ensures present.Throws? ==> present.error == ReaderIO
    ensures present.Ok? ==>
      (present.value <==>
        && r.samSlot in l.atrContainer
        && |l.atrContainer[r.samSlot]| > 0
        && HandleBound(l))
  {
    match GetInstance(l)
    case Throws(e) => Throws(e)
    case Ok(instance) =>
      var atr := if r.samSlot in l.atrContainer then Some(l.atrContainer[r.samSlot]) else Null;
      var atrExists := atr.Some? && |atr.value| > 0;
      Ok(atrExists && instance.readerInstance)
  }

  /** Presence over the reader's lifecycle: once an `initReader` that reads
      every ATR has been joined, a SAM is present exactly when its decoded
      ATR is non-empty and the APDU reader service was found; after the
      singleton has been cleared the check throws ReaderIOException. */
  lemma PresenceFollowsLifecycle(l: Lifecycle, read: AtrSource, initDone: bool, apduReaderBound: bool,
                                 r: ContactReader)
    requires AtrsReadable(read)
    ensures var joined := InitReader(l, read, [Joined(initDone, apduReaderBound)]).lifecycle;
      && CheckCardPresence(joined, r) == Ok(|read(AtrKey(r.samSlot)).value| > 0 && apduReaderBound)
      && CheckCardPresence(ClearInstance(joined).lifecycle, r) == Throws(ReaderIO)
  {
    var events := [Joined(initDone, apduReaderBound)];
    var prepared := Prepared(l, read);
    assert events[1..] == [];
    assert BindRun(prepared, events).binding == BindStep(prepared, events[0]).binding;
    InitReaderEffects(l, read, events);
  }

  /** A SAM reader is never contactless. */
  function IsContactless(r: ContactReader): (b: bool)
    ensures !b
  {
    false
  }

  /** `onUnregister` does nothing. */
  function OnUnregister(r: ContactReader): (q: ContactReader)
    ensures q == r
  {
    r
  }

  /** The request a SAM exchange hands to the service. */
  function SamRequest(r: ContactReader, apdu: Bytes): Request {
    Request(Sam(SlotId(r.samSlot)), [apdu])
  }

  /** `transmitApdu`: refused on the UI thread before anything else; a null
      APDU gives an empty array without contacting the SAM; otherwise the
      exchange result is returned unchanged, null included, and an exception
      in the exchange becomes IllegalStateException. `events` is what reaches
      the call after it is issued. */
  function TransmitApdu(l: Lifecycle, r: ContactReader, apduIn: Option<Bytes>, uiThread: bool,
                        events: seq<Event>): (t: Transmission<Option<Bytes>>)
    ensures uiThread ==> t == Transmission(Throws(IllegalState), Null)
    ensures !uiThread && apduIn.Null? ==> t == Transmission(Ok(Some([])), Null)
    ensures t.issued.Some? <==> !uiThread && apduIn.Some? && HandleBound(l)
    ensures t.issued.Some? ==> t.issued.value.target == Sam(SlotId(r.samSlot))
                                && t.issued.value.commands == [apduIn.value]
    ensures !uiThread && apduIn.Some? ==>
      match Outcome(HandleBound(l), events)
      case Returned(v) => t.result == Ok(v)
      case Raised(_) => t.result == Throws(IllegalState)
  {
    if uiThread then Transmission(Throws(IllegalState), Null)
    else if apduIn.Null? then Transmission(Ok(Some([])), Null)
    else
      var issued := if HandleBound(l) then Some(SamRequest(r, apduIn.value)) else Null;
      match Outcome(HandleBound(l), events)
      case Returned(v) => Transmission(Ok(v), issued)
      case Raised(_) => Transmission(Throws(IllegalState), issued)
  }

  /** Unlike the contactless reader, a SAM exchange can return null: the
      service's null first response, or a timeout. */
  lemma TransmitMayReturnNull(l: Lifecycle, r: ContactReader, apdu: Bytes)
    ensures TransmitApdu(l, r, Some(apdu), false, [TimedOut]).result == Ok(Null)
  {
  }

  /** Without a bound handle no SAM is contacted and, barring a coroutine
      failure, the call returns null once the timeout fires. */
  lemma UnboundTransmitReturnsNull(l: Lifecycle, r: ContactReader, apdu: Bytes, events: seq<Event>)
    requires !HandleBound(l)
    requires forall i :: 0 <= i < |events| ==> !events[i].LaunchFailed?
    ensures TransmitApdu(l, r, Some(apdu), false, events) == Transmission(Ok(Null), Null)
  {
    UnboundHandleTimesOut(Start(false), events);
  }
}
