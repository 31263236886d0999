// HttpContext: the parse state of one HTTP request and the request being
// filled in. The state changes only through three operations; the history
// of operations is kept as a ghost sequence so that the state can be tied
// to a pure run of the state machine.
module HttpContexts {
  import opened HttpRequests

  datatype ParseState = kExpectRequestLine | kExpectHeaders | kExpectBody | kGotAll

  /** The operations that change the parse state. */
  datatype Event = RequestLineReceived | HeadersReceived | ResetEvent

  /** The state an operation leaves behind; none depends on the state before. */
  function Step(s: ParseState, e: Event): ParseState
  {
    match e
    case RequestLineReceived => kExpectHeaders
    case HeadersReceived => kGotAll
    case ResetEvent => kExpectRequestLine
  }

  /** The state after a sequence of operations, starting from s. */
  function Run(s: ParseState, events: seq<Event>): ParseState
    decreases |events|
  {
    if events == [] then s else Run(Step(s, events[0]), events[1..])
  }

  /** Running one more operation is a step from the state reached so far. */
  lemma {:induction false} RunSnoc(s: ParseState, events: seq<Event>, e: Event)
    ensures Run(s, events + [e]) == Step(Run(s, events), e)
    decreases |events|
  {
    if events == [] {
      assert [e][1..] == [];
    } else {
      assert (events + [e])[1..] == events[1..] + [e];
      RunSnoc(Step(s, events[0]), events[1..], e);
    }
  }

  /**
   * kExpectBody is never entered: from any other state, no sequence of
   * operations reaches it; and the run ends in the state the last
   * operation names.
   */
  lemma {:induction false} NeverExpectBody(s: ParseState, events: seq<Event>)
    requires s != kExpectBody
    ensures Run(s, events) != kExpectBody
    ensures events != [] ==> Run(s, events) == Step(s, events[|events| - 1])
    decreases |events|
  {
    if events != [] {
      NeverExpectBody(Step(s, events[0]), events[1..]);
      if |events| > 1 {
        assert events[1..][|events[1..]| - 1] == events[|events| - 1];
      }
    }
  }

  /** The four state queries, as a tuple: (expectRequestLine, expectHeaders, expectBody, gotAll). */
  function Queries(s: ParseState): (q: (bool, bool, bool, bool))
  {
    (s == kExpectRequestLine, s == kExpectHeaders, s == kExpectBody, s == kGotAll)
  }

  function CountTrue(q: (bool, bool, bool, bool)): nat
  {
    (if q.0 then 1 else 0) + (if q.1 then 1 else 0) + (if q.2 then 1 else 0) + (if q.3 then 1 else 0)
  }

  /** Exactly one of the four queries holds in every state, and the queries tell the states apart. */
  lemma ExactlyOneQuery(s: ParseState, t: ParseState)
    ensures CountTrue(Queries(s)) == 1
    ensures Queries(s) == Queries(t) ==> s == t
  {
  }

  class HttpContext {
    var state: ParseState
    const request: HttpRequest
    ghost var history: seq<Event>

    ghost predicate Valid()
      reads this
    {
      state == Run(kExpectRequestLine, history)
    }

    /** HttpContext(): expecting the request line, with a default request. */
    constructor ()
      ensures Valid() && history == [] && state == kExpectRequestLine
      ensures fresh(request)
      ensures request.requestMethod == kInvalid && request.version == kUnknown
      ensures request.path == [] && request.receiveTime == 0 && request.headers == map[]
    {
      state := kExpectRequestLine;
      request := new HttpRequest();
      history := [];
    }

    predicate ExpectRequestLine()
      reads this
    {
      state == kExpectRequestLine
    }

    predicate ExpectHeaders()
      reads this
    {
      state == kExpectHeaders
    }

    predicate ExpectBody()
      reads this
    {
      state == kExpectBody
    }

    predicate GotAll()
      reads this
    {
      state == kGotAll
    }

    /** receiveRequestLine(): now expecting headers. */
    method ReceiveRequestLine()
      requires Valid()
      modifies this`state, this`history
      ensures Valid() && history == old(history) + [RequestLineReceived]
      ensures state == kExpectHeaders
    {
      RunSnoc(kExpectRequestLine, history, RequestLineReceived);
      state := kExpectHeaders;
      history := history + [RequestLineReceived];
    }

    /** receiveHeaders(): the request is complete; there is no body state in between. */
    method ReceiveHeaders()
      requires Valid()
      modifies this`state, this`history
      ensures Valid() && history == old(history) + [HeadersReceived]
      ensures state == kGotAll
    {
      RunSnoc(kExpectRequestLine, history, HeadersReceived);
      state := kGotAll;
      history := history + [HeadersReceived];
    }

    /**
     * reset(): back to expecting a request line, with the request's method,
     * path, receive time and headers set to a new request's; its version is
     * kept, since swap leaves versions in place.
     */
    method Reset()
      requires Valid()
      modifies this`state, this`history, request
      ensures Valid() && history == old(history) + [ResetEvent]
      ensures state == kExpectRequestLine
      ensures request.requestMethod == kInvalid && request.path == [] && request.receiveTime == 0
      ensures request.headers == map[] && request.version == old(request.version)
    {
      RunSnoc(kExpectRequestLine, history, ResetEvent);
      state := kExpectRequestLine;
      var dummy := new HttpRequest();
      request.Swap(dummy);
      history := history + [ResetEvent];
    }

    /** request(): both overloads give the request object the context holds for its whole life. */
    function Request(): (r: HttpRequest)
      ensures r == request
    {
      request
    }
  }

  /** A context in its invariant never answers expectBody(). */
  lemma ContextNeverExpectsBody(c: HttpContext)
    requires c.Valid()
    ensures !c.ExpectBody()
  {
    NeverExpectBody(kExpectRequestLine, c.history);
  }
}
