// HttpRequest: the parsed request line and headers of one HTTP request.
// Character ranges [start, end) into the received text are index pairs into
// a sequence of characters; the receive time is a plain number.
module HttpRequests {

  datatype Method = kInvalid | kGet | kPost | kHead | kPut | kDelete
  datatype Version = kUnknown | kHttp10 | kHttp11

  /** The method setMethod recognises in a token: exact, case-sensitive matches only. */
  function ParseMethod(m: string): Method
  {
    if m == "GET" then kGet
    else if m == "POST" then kPost
    else if m == "HEAD" then kHead
    else if m == "PUT" then kPut
    else if m == "DELETE" then kDelete
    else kInvalid
  }

  /** methodString(): the token of a method, "UNKNOWN" for kInvalid. */
  function MethodString(m: Method): string
  {
    match m
    case kGet => "GET"
    case kPost => "POST"
    case kHead => "HEAD"
    case kPut => "PUT"
    case kDelete => "DELETE"
    case kInvalid => "UNKNOWN"
  }

  /**
   * methodString and setMethod are inverse on the five methods: each valid
   * method's token parses back to it, and every token that parses to a
   * valid method is that method's token. "UNKNOWN" is not a method.
   */
  lemma MethodRoundTrip(m: Method, token: string)
    ensures m != kInvalid ==> ParseMethod(MethodString(m)) == m
    ensures ParseMethod(token) != kInvalid ==> MethodString(ParseMethod(token)) == token
    ensures ParseMethod(MethodString(kInvalid)) == kInvalid
  {
    assert "UNKNOWN" != "GET" && "UNKNOWN" != "POST" && "UNKNOWN" != "HEAD";
    assert "UNKNOWN" != "PUT" && "UNKNOWN" != "DELETE";
    match m {
      case kGet =>
      case kPost => assert "POST" != "GET";
      case kHead => assert "HEAD" != "GET" && "HEAD" != "POST";
      case kPut => assert "PUT" != "GET" && "PUT" != "POST" && "PUT" != "HEAD";
      case kDelete => assert "DELETE" != "GET" && "DELETE" != "POST" && "DELETE" != "HEAD" && "DELETE" != "PUT";
      case kInvalid =>
    }
  }

  /** isspace in the C locale. */
  predicate IsSpace(c: char)
  {
    c == ' ' || c == '\t' || c == '\n' || c == '\U{0B}' || c == '\U{0C}' || c == '\r'
  }

  /** The index of the first non-space character of s at or after i. */
  function SkipSpaces(s: string, i: nat): (j: nat)
    requires i <= |s|
    ensures i <= j <= |s|
    ensures forall k :: i <= k < j ==> IsSpace(s[k])
    ensures j < |s| ==> !IsSpace(s[j])
    decreases |s| - i
  {
    if i < |s| && IsSpace(s[i]) then SkipSpaces(s, i + 1) else i
  }

  /** The length of s with its trailing spaces dropped. */
  function TrimmedLength(s: string): (n: nat)
    ensures n <= |s|
    ensures forall k :: n <= k < |s| ==> IsSpace(s[k])
    ensures n > 0 ==> !IsSpace(s[n - 1])
  {
    if s != [] && IsSpace(s[|s| - 1]) then TrimmedLength(s[..|s| - 1]) else |s|
  }

  /** A header value: the text with leading and trailing spaces removed. */
  function Trim(s: string): (t: string)
  {
    var i := SkipSpaces(s, 0);
    s[i..][..TrimmedLength(s[i..])]
  }

  /**
   * Trimming keeps a contiguous part of the text, drops only spaces around
   * it, and leaves a value that neither starts nor ends with a space; done
   * twice it changes nothing more.
   */
  lemma TrimShape(s: string)
    ensures exists i, j ::
              && 0 <= i <= j <= |s| && Trim(s) == s[i..j]
              && (forall k :: 0 <= k < i ==> IsSpace(s[k]))
              && (forall k :: j <= k < |s| ==> IsSpace(s[k]))
    ensures Trim(s) != [] ==> !IsSpace(Trim(s)[0]) && !IsSpace(Trim(s)[|Trim(s)| - 1])
    ensures Trim(Trim(s)) == Trim(s)
  {
    var i := SkipSpaces(s, 0);
    var rest := s[i..];
    var n := TrimmedLength(rest);
    var t := rest[..n];
    assert t == s[i..i + n];
    forall k | i + n <= k < |s|
      ensures IsSpace(s[k])
    {
      assert s[k] == rest[k - i];
    }
    if t != [] {
      assert t[0] == s[i];
      assert t[|t| - 1] == rest[n - 1];
    }
    TrimNoSpaces(t);
  }

  /** A text with no space at either end trims to itself. */
  lemma TrimNoSpaces(t: string)
    requires t != [] ==> !IsSpace(t[0]) && !IsSpace(t[|t| - 1])
    ensures Trim(t) == t
  {
    assert SkipSpaces(t, 0) == 0;
    assert t[0..] == t;
  }

  class HttpRequest {
    var requestMethod: Method
    var version: Version
    var path: string
    var receiveTime: int
    var headers: map<string, string>

    /** HttpRequest(): no method, unknown version, empty path and headers. */
    constructor ()
      ensures requestMethod == kInvalid && version == kUnknown && path == [] && receiveTime == 0 && headers == map[]
    {
      requestMethod, version, path, receiveTime, headers := kInvalid, kUnknown, [], 0, map[];
    }

    method SetVersion(v: Version)
      modifies this`version
      ensures version == v
    {
      version := v;
    }

    /**
     * setMethod(start, end): only on a request with no method yet; the
     * token text[start..end] selects the method, and the result says
     * whether it was one of the five.
     */
    method SetMethod(text: string, start: nat, end: nat) returns (ok: bool)
      requires requestMethod == kInvalid && start <= end <= |text|
      modifies this`requestMethod
      ensures requestMethod == ParseMethod(text[start..end])
      ensures ok <==> requestMethod != kInvalid
    {
      var m := text[start..end];
      if m == "GET" {
        requestMethod := kGet;
      } else if m == "POST" {
        requestMethod := kPost;
      } else if m == "HEAD" {
        requestMethod := kHead;
      } else if m == "PUT" {
        requestMethod := kPut;
      } else if m == "DELETE" {
        requestMethod := kDelete;
      } else {
        requestMethod := kInvalid;
      }
      ok := requestMethod != kInvalid;
    }

    /** setPath(start, end): the path is exactly text[start..end]. */
    method SetPath(text: string, start: nat, end: nat)
      requires start <= end <= |text|
      modifies this`path
      ensures path == text[start..end]
    {
      path := text[start..end];
    }

    method SetReceiveTime(t: int)
      modifies this`receiveTime
      ensures receiveTime == t
    {
      receiveTime := t;
    }

    /**
     * addHeader(start, colon, end): the field is the text before the colon,
     * the value the text after it with the spaces around it skipped; the
     * field's entry is set to the value, replacing any earlier one.
     */
    method AddHeader(text: string, start: nat, colon: nat, end: nat)
      requires start <= colon < end <= |text|
      modifies this`headers
      ensures headers == old(headers)[text[start..colon] := Trim(text[colon + 1..end])]
    {
      var field := text[start..colon];
      var c := colon + 1;
      while c < end && IsSpace(text[c])
        invariant colon + 1 <= c <= end
        invariant SkipSpaces(text[colon + 1..end], c - (colon + 1)) == SkipSpaces(text[colon + 1..end], 0)
        decreases end - c
      {
        c := c + 1;
      }
      ghost var after := text[colon + 1..end];
      assert text[c..end] == after[SkipSpaces(after, 0)..];
      var value := text[c..end];
      while value != [] && IsSpace(value[|value| - 1])
        invariant TrimmedLength(value) == TrimmedLength(text[c..end])
        invariant value == text[c..end][..|value|]
        decreases |value|
      {
        value := value[..|value| - 1];
      }
      headers := headers[field := value];
    }

    /** getHeader(field): the field's value, or "" when there is none. */
    function GetHeader(field: string): (v: string)
      reads this
      ensures field in headers ==> v == headers[field]
      ensures field !in headers ==> v == ""
    {
      if field in headers then headers[field] else ""
    }

    /**
     * swap(that): exchanges method, path, receive time and headers with
     * that; the versions stay where they were.
     */
    method Swap(that: HttpRequest)
      modifies this, that
      ensures requestMethod == old(that.requestMethod) && that.requestMethod == old(requestMethod)
      ensures path == old(that.path) && that.path == old(path)
      ensures receiveTime == old(that.receiveTime) && that.receiveTime == old(receiveTime)
      ensures headers == old(that.headers) && that.headers == old(headers)
      ensures version == old(version) && that.version == old(that.version)
    {
      var m, p, t, h := requestMethod, path, receiveTime, headers;
      requestMethod, path, receiveTime, headers := that.requestMethod, that.path, that.receiveTime, that.headers;
      that.requestMethod, that.path, that.receiveTime, that.headers := m, p, t, h;
    }
  }

  /** After addHeader, getHeader finds the trimmed value for its field and the old answer for every other. */
  lemma AddThenGet(headers: map<string, string>, field: string, value: string, other: string)
    requires other != field
    ensures var h := headers[field := Trim(value)];
      h[field] == Trim(value) && (other in h <==> other in headers) && (other in headers ==> h[other] == headers[other])
  {
  }
}
