/** The bridge that turns one asynchronous exchange with the APDU reader
    service into one blocking `transmitApdu` result, reduced to its sequential
    contract. A call issues at most one exchange, then reacts to a trace of
    events: the service's exchange callback, an exception in the launched
    coroutine, or the timeout. The delivery channel forwards the value the
    callback offers to the result handler, which resumes the waiting
    continuation at most once.

    The exchange entry points are `sendCommandToCard`/`sendCommandToSam` of
    FlowbirdReader; the channel, the result handler and the coroutine are the
    same in the contact and contactless adapters, so they are modelled once. */
module Exchange {
  import opened Base

  /** The service entry point a call addresses: the card by its id, or a SAM by its slot id. */
  datatype Target = Card(cardId: Long) | Sam(slotId: int)

  /** What is handed to the service: a target and a one-command list. */
  datatype Request = Request(target: Target, commands: seq<Bytes>)

  /** The value the exchange callback offers to the delivery channel: the
      first response when there is one, otherwise an empty array. */
  function Offered(responses: seq<Option<Bytes>>): (v: Option<Bytes>)
    ensures v in responses || (|responses| == 0 && v == Some([]))
    ensures |responses| > 0 ==> v == responses[0]
  {
    if |responses| > 0 then responses[0] else Some([])
  }

  /** The continuation `transmitApdu` waits on. */
  datatype Continuation =
    | Active
    | Resumed(value: Bytes)
    | ResumedWithException(cause: Throwable)
    | Cancelled                              // the timeout fired first

  /** The state of one call: its continuation, whether the delivery channel is
      still open, and whether an exchange was issued at all (it is not when the
      service handle is null). */
  datatype Call = Call(continuation: Continuation, channelOpen: bool, issued: bool)

  /** The two shapes in which the result handler is called: with a value read
      from the channel (which may be null), or with the coroutine's exception. */
  datatype Delivery = Value(result: Option<Bytes>) | Failure(throwable: Throwable)

  /** An event that reaches a call after it has been started. */
  datatype Event =
    | ExchangeDone(responses: seq<Option<Bytes>>)  // the service's exchange callback
    | LaunchFailed(cause: Throwable)                // the coroutine's exception handler
    | TimedOut                                      // the timeout of the suspended call

  /** A new call: continuation active, a fresh open channel, and an exchange
      issued exactly when the service handle is bound. */
  function Start(handleBound: bool): (c: Call)
    ensures c.continuation.Active? && c.channelOpen && c.issued == handleBound
  {
    Call(Active, true, handleBound)
  }

  /** `handleResponseApduResult`: only while the continuation is active, close
      the channel, then resume with a non-null value or with the exception. A
      null value closes the channel but leaves the continuation waiting. */
  function HandleResponseApduResult(c: Call, d: Delivery): (r: Call)
    ensures !c.continuation.Active? ==> r == c
    ensures c.continuation.Active? ==> !r.channelOpen && r.issued == c.issued
    ensures c.continuation.Active? && d.Value? && d.result.Some? ==>
      r.continuation == Resumed(d.result.value)
    ensures c.continuation.Active? && d.Value? && d.result.Null? ==> r.continuation.Active?
    ensures c.continuation.Active? && d.Failure? ==>
      r.continuation == ResumedWithException(d.throwable)
  {
    if !c.continuation.Active? then c
    else
      var closed := c.(channelOpen := false);
      match d
      case Value(Some(v)) => closed.(continuation := Resumed(v))
      case Value(Null) => closed
      case Failure(t) => closed.(continuation := ResumedWithException(t))
  }

  /** The effect of one event, with the exception thrown back into the
      service's exchange callback, if any. */
  datatype Stepped = Stepped(call: Call, thrown: Option<Exception>)

  /** One event. The exchange callback offers its value to the channel it was
      given; once the result handler has closed that channel the offer throws
      ClosedSendChannelException back into the callback and the call is
      unchanged. A callback only arrives for an issued exchange. */
  function Step(c: Call, e: Event): (r: Stepped)
    ensures r.call.issued == c.issued
    ensures !c.continuation.Active? ==> r.call.continuation == c.continuation
    ensures r.thrown.Some? <==> e.ExchangeDone? && c.issued && !c.channelOpen
    ensures r.thrown.Some? ==> r.thrown.value == ClosedSendChannel && r.call == c
    ensures !c.channelOpen ==> !r.call.channelOpen
    ensures c.issued && c.channelOpen && e.ExchangeDone? ==>
      r.call == HandleResponseApduResult(c, Value(Offered(e.responses)))
  {
    match e
    case ExchangeDone(responses) =>
      if !c.issued then Stepped(c, Null)
      else if c.channelOpen then Stepped(HandleResponseApduResult(c, Value(Offered(responses))), Null)
      else Stepped(c, Some(ClosedSendChannel))
    case LaunchFailed(t) => Stepped(HandleResponseApduResult(c, Failure(t)), Null)
    case TimedOut => Stepped(if c.continuation.Active? then c.(continuation := Cancelled) else c, Null)
  }

  /** A trace of events, in arrival order. */
  function Run(c: Call, events: seq<Event>): Call
    decreases |events|
  {
    if |events| == 0 then c else Run(Step(c, events[0]).call, events[1..])
  }

  /** What the suspended call returns. The timeout always fires eventually, so
      a continuation still active at the end of a trace ends as a timeout,
      which yields null. */
  datatype Completion = Returned(value: Option<Bytes>) | Raised(cause: Throwable)

  function Settle(c: Call): (r: Completion)
    ensures r.Returned? && r.value.Some? <==> c.continuation.Resumed?
    ensures c.continuation.Resumed? ==> r == Returned(Some(c.continuation.value))
    ensures r.Raised? <==> c.continuation.ResumedWithException?
  {
    match c.continuation
    case Resumed(v) => Returned(Some(v))
    case ResumedWithException(t) => Raised(t)
    case Cancelled => Returned(Null)
    case Active => Returned(Null)
  }

  /** The completion of a call that starts with `handleBound` and sees `events`. */
  function Outcome(handleBound: bool, events: seq<Event>): Completion {
    Settle(Run(Start(handleBound), events))
  }

  /** What a `transmitApdu` call reports: its result, and the request it
      handed to the service, if any. */
  datatype Transmission<T> = Transmission(result: Result<T>, issued: Option<Request>)

  /** Running two traces one after the other is running their concatenation. */
  lemma {:induction false} RunAppend(c: Call, a: seq<Event>, b: seq<Event>)
    ensures Run(c, a + b) == Run(Run(c, a), b)
    decreases |a|
  {
    if |a| == 0 {
      assert a + b == b;
    } else {
      assert (a + b)[0] == a[0];
      assert (a + b)[1..] == a[1..] + b;
      RunAppend(Step(c, a[0]).call, a[1..], b);
    }
  }

  /** Once the continuation has been resumed or cancelled, nothing changes it:
      the first result wins and every later one is dropped. */
  lemma {:induction false} FirstResultWins(c: Call, events: seq<Event>)
    requires !c.continuation.Active?
    ensures Run(c, events).continuation == c.continuation
    decreases |events|
  {
    if |events| > 0 {
      FirstResultWins(Step(c, events[0]).call, events[1..]);
    }
  }

  /** Whatever arrives after a decisive event is dropped. */
  lemma LateEventsDropped(handleBound: bool, before: seq<Event>, after: seq<Event>)
    requires !Run(Start(handleBound), before).continuation.Active?
    ensures Outcome(handleBound, before + after) == Outcome(handleBound, before)
  {
    RunAppend(Start(handleBound), before, after);
    FirstResultWins(Run(Start(handleBound), before), after);
  }

  /** A callback arriving after the timeout never leaks into the result. */
  lemma LateResponseAfterTimeout(handleBound: bool, responses: seq<Option<Bytes>>)
    ensures Outcome(handleBound, [TimedOut, ExchangeDone(responses)]) == Returned(Null)
  {
    var c := Step(Start(handleBound), TimedOut).call;
    assert [TimedOut, ExchangeDone(responses)][1..] == [ExchangeDone(responses)];
    FirstResultWins(c, [ExchangeDone(responses)]);
  }

  /** Without a bound service handle no exchange is issued, so unless the
      coroutine itself fails the call can only time out. */
  lemma {:induction false} UnboundHandleTimesOut(c: Call, events: seq<Event>)
    requires !c.issued && (c.continuation.Active? || c.continuation.Cancelled?)
    requires forall i :: 0 <= i < |events| ==> !events[i].LaunchFailed?
    ensures Run(c, events).continuation.Active? || Run(c, events).continuation.Cancelled?
    ensures Settle(Run(c, events)) == Returned(Null)
    decreases |events|
  {
    if |events| > 0 {
      UnboundHandleTimesOut(Step(c, events[0]).call, events[1..]);
    }
  }

  /** One callback with a list of responses: the call returns the first one,
      or an empty array for an empty list; a null first response leaves the
      call to time out. */
  lemma SingleCallback(responses: seq<Option<Bytes>>)
    ensures |responses| == 0 ==> Outcome(true, [ExchangeDone(responses)]) == Returned(Some([]))
    ensures |responses| > 0 ==> Outcome(true, [ExchangeDone(responses)]) == Returned(responses[0])
  {
    var c := Step(Start(true), ExchangeDone(responses)).call;
    assert Run(c, []) == c;
    assert [ExchangeDone(responses)][1..] == [];
  }

  /** A second callback cannot overwrite the first one's non-null response. */
  lemma SecondCallbackDropped(r: Bytes, later: seq<Option<Bytes>>)
    ensures Outcome(true, [ExchangeDone([Some(r)]), ExchangeDone(later)]) == Returned(Some(r))
  {
    var c := Step(Start(true), ExchangeDone([Some(r)])).call;
    assert c.continuation == Resumed(r);
    assert [ExchangeDone([Some(r)]), ExchangeDone(later)][1..] == [ExchangeDone(later)];
    FirstResultWins(c, [ExchangeDone(later)]);
  }

  /** Once the result handler has run, the channel stays closed. */
  lemma {:induction false} ChannelStaysClosed(c: Call, events: seq<Event>)
    requires !c.channelOpen
    ensures !Run(c, events).channelOpen
    decreases |events|
  {
    if |events| > 0 {
      ChannelStaysClosed(Step(c, events[0]).call, events[1..]);
    }
  }

  /** A second exchange callback finds the channel closed: its offer throws
      ClosedSendChannelException back into the callback, whatever it carries,
      and the first response still stands. */
  lemma SecondCallbackThrows(first: seq<Option<Bytes>>, later: seq<Option<Bytes>>)
    ensures var c := Step(Start(true), ExchangeDone(first)).call;
      && Step(c, ExchangeDone(later)).thrown == Some(ClosedSendChannel)
      && Step(c, ExchangeDone(later)).call == c
  {
  }
}
