// The second copy of HttpContext kept beside the first one. It has the same
// states and the same three operations, so it is specified by the same pure
// state machine; AgreesWithMain states that the two copies cannot drift
// apart on any history of operations.
module HttpContextsBak {
  import opened HttpRequests
  import HttpContexts

  type ParseState = HttpContexts.ParseState
  type Event = HttpContexts.Event

  class HttpContext {
    var state: ParseState
    const request: HttpRequest
    ghost var history: seq<Event>

    ghost predicate Valid()
      reads this
    {
      state == HttpContexts.Run(HttpContexts.kExpectRequestLine, history)
    }

    /** HttpContext(): expecting the request line, with a default request. */
    constructor ()
      ensures Valid() && history == [] && state == HttpContexts.kExpectRequestLine
      ensures fresh(request)
      ensures request.requestMethod == kInvalid && request.version == kUnknown
      ensures request.path == [] && request.receiveTime == 0 && request.headers == map[]
    {
      state := HttpContexts.kExpectRequestLine;
      request := new HttpRequest();
      history := [];
    }

    predicate ExpectRequestLine()
      reads this
    {
      state == HttpContexts.kExpectRequestLine
    }

    predicate ExpectHeaders()
      reads this
    {
      state == HttpContexts.kExpectHeaders
    }

    predicate ExpectBody()
      reads this
    {
      state == HttpContexts.kExpectBody
    }

    predicate GotAll()
      reads this
    {
      state == HttpContexts.kGotAll
    }

    /** receiveRequestLine(): now expecting headers. */
    method ReceiveRequestLine()
      requires Valid()
      modifies this`state, this`history
      ensures Valid() && history == old(history) + [HttpContexts.RequestLineReceived]
      ensures state == HttpContexts.kExpectHeaders
    {
      HttpContexts.RunSnoc(HttpContexts.kExpectRequestLine, history, HttpContexts.RequestLineReceived);
      state := HttpContexts.kExpectHeaders;
      history := history + [HttpContexts.RequestLineReceived];
    }

    /** receiveHeaders(): the request is complete. */
    method ReceiveHeaders()
      requires Valid()
      modifies this`state, this`history
      ensures Valid() && history == old(history) + [HttpContexts.HeadersReceived]
      ensures state == HttpContexts.kGotAll
    {
      HttpContexts.RunSnoc(HttpContexts.kExpectRequestLine, history, HttpContexts.HeadersReceived);
      state := HttpContexts.kGotAll;
      history := history + [HttpContexts.HeadersReceived];
    }

    /** reset(): expecting a request line again, with a default request except for its version. */
    method Reset()
      requires Valid()
      modifies this`state, this`history, request
      ensures Valid() && history == old(history) + [HttpContexts.ResetEvent]
      ensures state == HttpContexts.kExpectRequestLine
      ensures request.requestMethod == kInvalid && request.path == [] && request.receiveTime == 0
      ensures request.headers == map[] && request.version == old(request.version)
    {
      HttpContexts.RunSnoc(HttpContexts.kExpectRequestLine, history, HttpContexts.ResetEvent);
      state := HttpContexts.kExpectRequestLine;
      var dummy := new HttpRequest();
      request.Swap(dummy);
      history := history + [HttpContexts.ResetEvent];
    }

    /** request(): the request object the context holds for its whole life. */
    function Request(): (r: HttpRequest)
      ensures r == request
    {
      request
    }
  }

  /**
   * A context of this copy and one of the other copy that have seen the
   * same operations are in the same state, and neither expects a body.
   */
  lemma AgreesWithMain(bak: HttpContext, main: HttpContexts.HttpContext)
    requires bak.Valid() && main.Valid() && bak.history == main.history
    ensures bak.state == main.state
    ensures !bak.ExpectBody() && !main.ExpectBody()
  {
    HttpContexts.NeverExpectBody(HttpContexts.kExpectRequestLine, bak.history);
  }
}
