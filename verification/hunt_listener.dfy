/** The listener registered with the vendor hunt service (MyHuntEventListener):
    it decodes a detection payload into a `Tag`, forwards detections and
    removals to the one listener function set on it, and swallows errors. */
module HuntListener {
  import opened Base
  import opened Tags

  /** The vendor's `HuntConstants` and `StringUtils.bytesToHexString`. Their
      values are not part of this model, so they are parameters. */
  datatype Vendor = Vendor(
    tagType: string,
    tagPeripheral: string,
    typeCless: string,
    typeBarcode: string,
    typeMagnetic: string,
    peripheralDdm: string,
    bytesToHexString: Option<Bytes> -> Option<string>)

  const OPENPAY: string := "OPENPAY"
  const OPENPAY_ATR: string := "*****"
  const OPENPAY_DATA: string := "0123456789ABCD0123456789ABC"

  /** Length of the vendor prefix dropped from a contactless ATR. */
  const ATR_PREFIX_LENGTH: nat := 14

  /** The four customer types `onDetected` tests are pairwise distinct. */
  predicate DistinctTypes(v: Vendor) {
    && v.typeCless != v.typeBarcode
    && v.typeCless != v.typeMagnetic
    && v.typeCless != OPENPAY
    && v.typeBarcode != v.typeMagnetic
    && v.typeBarcode != OPENPAY
    && v.typeMagnetic != OPENPAY
  }

  /** An Android `Bundle`, reduced to the three typed views read here. */
  datatype Bundle = Bundle(
    strings: map<string, string>,
    longs: map<string, Long>,
    byteArrays: map<string, Bytes>)

  /** `Bundle.getString`: null when the key is absent. */
  function GetString(b: Bundle, key: string): Option<string> {
    if key in b.strings then Some(b.strings[key]) else Null
  }

  /** `Bundle.getLong`: 0 when the key is absent. */
  function GetLong(b: Bundle, key: string): Long {
    if key in b.longs then b.longs[key] else 0
  }

  /** `Bundle.getByteArray`: null when the key is absent. */
  function GetByteArray(b: Bundle, key: string): Option<Bytes> {
    if key in b.byteArrays then Some(b.byteArrays[key]) else Null
  }

  /** The customer type of a payload. */
  function CustomerType(v: Vendor, data: Bundle): Option<string> {
    GetString(data, v.tagType)
  }

  /** A decoded detection: the tag and the value left in `usePeripheralResult`. */
  datatype Decoded = Decoded(tag: Tag, usePeripheralResult: bool)

  /** The branch table of `onDetected`. A contactless payload whose "atr" is
      missing or shorter than the vendor prefix makes it throw. */
  function Decode(v: Vendor, data: Bundle): (r: Result<Decoded>)
    ensures r.Throws? <==>
      && CustomerType(v, data) == Some(v.typeCless)
      && (GetString(data, "atr").Null? || |GetString(data, "atr").value| < ATR_PREFIX_LENGTH)
    ensures r.Throws? ==> r.error in {NullPointer, IndexOutOfBounds}
    ensures r.Ok? ==> r.value.tag.customerType == CustomerType(v, data)
    ensures r.Ok? ==> r.value.tag.peripheral == GetString(data, v.tagPeripheral)
    // a contactless tag: ATR and id from the payload, readable data the ATR minus its prefix
    ensures r.Ok? && CustomerType(v, data) == Some(v.typeCless) ==>
      && r.value.tag.atr == GetString(data, "atr")
      && r.value.tag.cardId == Some(GetLong(data, "id"))
      && r.value.tag.readableData.Some?
      && r.value.tag.atr.value
         == r.value.tag.atr.value[..ATR_PREFIX_LENGTH] + r.value.tag.readableData.value
    // only a contactless tag carries a card id
    ensures r.Ok? && CustomerType(v, data) != Some(v.typeCless) ==> r.value.tag.cardId == Null
    // every other recognised type shows its ATR as the readable data
    ensures r.Ok? && CustomerType(v, data) in {Some(v.typeBarcode), Some(v.typeMagnetic)}
              && CustomerType(v, data) != Some(v.typeCless) ==>
      r.value.tag.readableData == r.value.tag.atr
    ensures r.Ok? && r.value.usePeripheralResult ==> CustomerType(v, data) == Some(OPENPAY)
  {
    var customerType := CustomerType(v, data);
    var peripheral := GetString(data, v.tagPeripheral);
    if customerType == Some(v.typeCless) then
      var atr := GetString(data, "atr");
      if atr.Null? then Throws(NullPointer)
      else if |atr.value| < ATR_PREFIX_LENGTH then Throws(IndexOutOfBounds)
      else
        Ok(Decoded(Tag(customerType, Some(GetLong(data, "id")), peripheral, atr,
                       Some(atr.value[ATR_PREFIX_LENGTH..])), false))
    else if customerType == Some(v.typeBarcode) then
      var atr := GetString(data, "data");
      Ok(Decoded(Tag(customerType, Null, peripheral, atr, atr), false))
    else if customerType == Some(v.typeMagnetic) then
      var atr :=
        if peripheral == Some(v.peripheralDdm) then v.bytesToHexString(GetByteArray(data, "track"))
        else GetString(data, "track");
      Ok(Decoded(Tag(customerType, Null, peripheral, atr, atr), false))
    else if customerType == Some(OPENPAY) then
      Ok(Decoded(Tag(customerType, Null, peripheral, Some(OPENPAY_ATR), Some(OPENPAY_DATA)), true))
    else
      Ok(Decoded(Tag(customerType, Null, peripheral, Some(""), Some("")), false))
  }

  /** Barcode: ATR and readable data are both the "data" field. */
  lemma DecodeBarcode(v: Vendor, data: Bundle)
    requires DistinctTypes(v)
    requires CustomerType(v, data) == Some(v.typeBarcode)
    ensures Decode(v, data).Ok?
    ensures Decode(v, data).value.tag.atr == GetString(data, "data")
    ensures Decode(v, data).value.tag.readableData == GetString(data, "data")
    ensures Decode(v, data).value.tag.cardId == Null
  {
  }

  /** Magnetic: the hex of the "track" bytes on a DDM peripheral, else the "track" string. */
  lemma DecodeMagnetic(v: Vendor, data: Bundle)
    requires DistinctTypes(v)
    requires CustomerType(v, data) == Some(v.typeMagnetic)
    ensures Decode(v, data).Ok?
    ensures GetString(data, v.tagPeripheral) == Some(v.peripheralDdm) ==>
      Decode(v, data).value.tag.atr == v.bytesToHexString(GetByteArray(data, "track"))
    ensures GetString(data, v.tagPeripheral) != Some(v.peripheralDdm) ==>
      Decode(v, data).value.tag.atr == GetString(data, "track")
    ensures Decode(v, data).value.tag.readableData == Decode(v, data).value.tag.atr
  {
  }

  /** `usePeripheralResult` is raised by an OPENPAY payload and by no other. */
  lemma UsePeripheralOnlyForOpenPay(v: Vendor, data: Bundle)
    requires DistinctTypes(v)
    ensures Decode(v, data).Ok? ==>
      (Decode(v, data).value.usePeripheralResult <==> CustomerType(v, data) == Some(OPENPAY))
    ensures CustomerType(v, data) == Some(OPENPAY) ==>
      && Decode(v, data).Ok?
      && Decode(v, data).value.tag.atr == Some(OPENPAY_ATR)
      && Decode(v, data).value.tag.readableData == Some(OPENPAY_DATA)
  {
  }

  /** An unrecognised customer type (including a missing one) decodes to empty ATR and data. */
  lemma DecodeUnrecognised(v: Vendor, data: Bundle)
    requires CustomerType(v, data) !in {Some(v.typeCless), Some(v.typeBarcode), Some(v.typeMagnetic), Some(OPENPAY)}
    ensures Decode(v, data) == Ok(Decoded(Tag(CustomerType(v, data), Null, GetString(data, v.tagPeripheral),
                                              Some(""), Some("")), false))
  {
  }

  /** The listener object: the function set by `setListener`, here an
      identity `S`, and the `usePeripheralResult` flag. */
  datatype Listener<S> = Listener(sink: Option<S>, usePeripheralResult: bool)

  /** One invocation of the listener function `sink` with `event`. */
  datatype Delivery<S> = Delivery(sink: S, event: HuntEventResult<Tag>)

  /** The effect of one hunt-service callback: the listener's next state, the
      invocations of its listener function, and the exception thrown back to
      the hunt service, if any. */
  datatype Reaction<S> = Reaction(listener: Listener<S>, delivered: seq<Delivery<S>>, thrown: Option<Exception>)

  /** `onDetected`: decode, then hand one success to the listener function when one is set.
      `usePeripheralResult` is cleared before decoding, so a throwing payload leaves it false. */
  function OnDetected<S>(l: Listener<S>, v: Vendor, data: Bundle): (r: Reaction<S>)
    ensures r.listener.sink == l.sink
    ensures r.thrown.Some? <==> Decode(v, data).Throws?
    ensures r.listener.usePeripheralResult <==> Decode(v, data).Ok? && Decode(v, data).value.usePeripheralResult
    ensures |r.delivered| <= 1
    ensures |r.delivered| == 1 <==> l.sink.Some? && Decode(v, data).Ok?
    ensures forall d :: d in r.delivered ==>
      d.sink == l.sink.value && d.event == TagResultSuccess(Decode(v, data).value.tag)
  {
    match Decode(v, data)
    case Throws(e) => Reaction(l.(usePeripheralResult := false), [], Some(e))
    case Ok(decoded) =>
      var delivered := if l.sink.Some? then [Delivery(l.sink.value, TagResultSuccess(decoded.tag))] else [];
      Reaction(l.(usePeripheralResult := decoded.usePeripheralResult), delivered, Null)
  }

  /** `onRemoved`: one `CardRemoved` to the listener function when one is set. */
  function OnRemoved<S>(l: Listener<S>): (r: Reaction<S>)
    ensures r.listener == l && r.thrown == Null
    ensures l.sink.Null? ==> r.delivered == []
    ensures l.sink.Some? ==> r.delivered == [Delivery(l.sink.value, CardRemoved)]
  {
    Reaction(l, if l.sink.Some? then [Delivery(l.sink.value, CardRemoved)] else [], Null)
  }

  /** `onError`: a pause, and nothing else; the listener function is never invoked. */
  function OnError<S>(l: Listener<S>): (r: Reaction<S>)
    ensures r.listener == l && r.delivered == [] && r.thrown == Null
  {
    Reaction(l, [], Null)
  }

  /** `setListener`: replace the listener function; `Null` unsets it. */
  function SetListener<S>(l: Listener<S>, sink: Option<S>): (r: Listener<S>)
    ensures r.sink == sink && r.usePeripheralResult == l.usePeripheralResult
  {
    l.(sink := sink)
  }

  /** A callback from the hunt service. */
  datatype Callback = Detected(data: Bundle) | Removed | Errored(data: Bundle)

  function React<S>(l: Listener<S>, v: Vendor, c: Callback): (r: Reaction<S>)
    ensures r.listener.sink == l.sink
    ensures l.sink.Null? ==> r.delivered == []
    ensures forall d :: d in r.delivered ==> l.sink == Some(d.sink)
  {
    match c
    case Detected(data) => OnDetected(l, v, data)
    case Removed => OnRemoved(l)
    case Errored(_) => OnError(l)
  }

  datatype Replayed<S> = Replayed(listener: Listener<S>, delivered: seq<Delivery<S>>)

  /** A run of callbacks, in order, with no `setListener` in between. */
  function Replay<S>(l: Listener<S>, v: Vendor, callbacks: seq<Callback>): Replayed<S>
    decreases |callbacks|
  {
    if |callbacks| == 0 then Replayed(l, [])
    else
      var first := React(l, v, callbacks[0]);
      var rest := Replay(first.listener, v, callbacks[1..]);
      Replayed(rest.listener, first.delivered + rest.delivered)
  }

  /** After `setListener(null)` no later callback reaches any listener function. */
  lemma {:induction false} SilencedListenerDeliversNothing<S>(l: Listener<S>, v: Vendor, callbacks: seq<Callback>)
    requires l.sink.Null?
    ensures Replay(l, v, callbacks).delivered == []
    ensures Replay(l, v, callbacks).listener.sink.Null?
    decreases |callbacks|
  {
    if |callbacks| > 0 {
      SilencedListenerDeliversNothing(React(l, v, callbacks[0]).listener, v, callbacks[1..]);
    }
  }

  /** With a listener function set, every delivery goes to it; the callbacks never change it. */
  lemma {:induction false} DeliveriesReachCurrentSink<S>(l: Listener<S>, v: Vendor, callbacks: seq<Callback>)
    requires l.sink.Some?
    ensures Replay(l, v, callbacks).listener.sink == l.sink
    ensures forall d :: d in Replay(l, v, callbacks).delivered ==> d.sink == l.sink.value
    decreases |callbacks|
  {
    if |callbacks| > 0 {
      DeliveriesReachCurrentSink(React(l, v, callbacks[0]).listener, v, callbacks[1..]);
    }
  }

  /** An error callback is invisible: dropping it changes neither deliveries nor the listener. */
  lemma ErrorsAreSwallowed<S>(l: Listener<S>, v: Vendor, data: Bundle, callbacks: seq<Callback>)
    ensures Replay(l, v, [Errored(data)] + callbacks) == Replay(l, v, callbacks)
  {
    assert ([Errored(data)] + callbacks)[1..] == callbacks;
  }
}
