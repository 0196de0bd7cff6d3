/** WebSocketCorsFilter.java: the CORS response headers (the CORS protocol, section 3.2 of the
    WHATWG Fetch Standard) the filter sets on WebSocket and SockJS requests, the preflight short
    cut, and the hand-over to the rest of the filter chain. The response is a header map and a
    status; the chain is the number of times it was called. */
module WebSocketCors {
  import opened Wrappers
  import opened Text

  const AllowOrigin: string := "Access-Control-Allow-Origin"
  const AllowCredentials: string := "Access-Control-Allow-Credentials"
  const AllowMethods: string := "Access-Control-Allow-Methods"
  const AllowHeaders: string := "Access-Control-Allow-Headers"
  const MaxAge: string := "Access-Control-Max-Age"

  const LocalhostPrefix: string := "http://localhost:"
  const Ec2Prefix: string := "http://ec2-51-20-34-148.eu-north-1.compute.amazonaws.com:3030"
  const IpPrefix: string := "http://16.171.58.56:3000"

  const StatusOk: int := 200

  /** The headers set on every WebSocket-path request, whatever its origin. */
  function FixedHeaders(): map<string, string>
  {
    map[][AllowCredentials := "true"]
         [AllowMethods := "GET, POST, PUT, DELETE, OPTIONS"]
         [AllowHeaders := "Origin, X-Requested-With, Content-Type, Accept, Authorization, Cache-Control"]
         [MaxAge := "3600"]
  }

  /** A request URI that starts with "/ws" or contains "sockjs". */
  predicate IsWebSocketPath(uri: Option<string>)
  {
    uri.Some? && (StartsWith(uri.value, "/ws") || ContainsSub(uri.value, "sockjs"))
  }

  /** The first branch's test: one of the three listed origin prefixes. */
  predicate ListedOrigin(origin: Option<string>)
  {
    origin.Some? &&
    (StartsWith(origin.value, LocalhostPrefix) || StartsWith(origin.value, Ec2Prefix)
     || StartsWith(origin.value, IpPrefix))
  }

  /** The else-if branch's test. */
  predicate LocalhostOrigin(origin: Option<string>)
  {
    origin.Some? && StartsWith(origin.value, LocalhostPrefix)
  }

  /** The else-if branch can never run: its test implies the first branch's. */
  lemma ElseIfBranchUnreachable(origin: Option<string>)
    ensures !(!ListedOrigin(origin) && LocalhostOrigin(origin))
  {
  }

  /** String.equalsIgnoreCase against "OPTIONS", on ASCII letters. */
  predicate IsOptions(httpMethod: string)
  {
    |httpMethod| == 7 && forall i :: 0 <= i < 7 ==> UpperChar(httpMethod[i]) == "OPTIONS"[i]
  }

  lemma IsOptionsExamples()
    ensures IsOptions("OPTIONS") && IsOptions("options") && IsOptions("Options")
    ensures !IsOptions("GET") && !IsOptions("OPTION")
  {
    assert UpperChar('o') == 'O' && UpperChar('p') == 'P' && UpperChar('t') == 'T';
    assert UpperChar('i') == 'I' && UpperChar('n') == 'N' && UpperChar('s') == 'S';
  }

  /** The headers after the WebSocket branch's setHeader calls: the origin echoed when listed,
      then the four fixed headers. */
  function WithCorsHeaders(headers: map<string, string>, origin: Option<string>): map<string, string>
  {
    (if ListedOrigin(origin) then headers[AllowOrigin := origin.value] else headers) + FixedHeaders()
  }

  /** The four fixed headers always hold their fixed values; Access-Control-Allow-Origin is the
      request's origin exactly when that origin is listed, and is otherwise left as it was; no
      other header is touched or added. */
  lemma CorsHeadersMeaning(headers: map<string, string>, origin: Option<string>)
    ensures var r := WithCorsHeaders(headers, origin);
            && (forall h :: h in FixedHeaders() ==> h in r && r[h] == FixedHeaders()[h])
            && (ListedOrigin(origin) ==> AllowOrigin in r && r[AllowOrigin] == origin.value)
            && (!ListedOrigin(origin) ==>
                  (AllowOrigin in r <==> AllowOrigin in headers)
                  && (AllowOrigin in r ==> r[AllowOrigin] == headers[AllowOrigin]))
            && (forall h :: h in headers && h !in FixedHeaders() && h != AllowOrigin ==>
                  h in r && r[h] == headers[h])
            && (forall h :: h in r ==> h in headers || h in FixedHeaders() || h == AllowOrigin)
  {
    assert |AllowOrigin| == 27;
    assert AllowOrigin !in FixedHeaders() by {
      assert |AllowCredentials| == 32 && |AllowMethods| == 28 && |AllowHeaders| == 28 && |MaxAge| == 22;
      assert FixedHeaders().Keys == {AllowCredentials, AllowMethods, AllowHeaders, MaxAge};
    }
  }

  /** The four fixed setHeader calls in the filter's order give the same map as adding the
      fixed headers at once. */
  lemma FixedHeadersInOrder(h: map<string, string>)
    ensures h[AllowCredentials := "true"]
             [AllowMethods := "GET, POST, PUT, DELETE, OPTIONS"]
             [AllowHeaders := "Origin, X-Requested-With, Content-Type, Accept, Authorization, Cache-Control"]
             [MaxAge := "3600"]
            == h + FixedHeaders()
  {
  }

  /** One filter call: the response's headers and status, and how often the chain ran. */
  class FilterExchange {
    var headers: map<string, string>
    var status: Option<int>
    var chainCalls: nat

    constructor()
      ensures headers == map[] && status.None? && chainCalls == 0
    {
      headers := map[];
      status := None;
      chainCalls := 0;
    }

    /** doFilter. A request off the WebSocket paths only reaches the chain. On those paths the
        CORS headers are set (see CorsHeadersMeaning), and an OPTIONS request gets status 200
        without reaching the chain; every other request reaches the chain exactly once. */
    method DoFilter(uri: Option<string>, origin: Option<string>, httpMethod: string)
      modifies this
      ensures !IsWebSocketPath(uri) ==>
                headers == old(headers) && status == old(status) && chainCalls == old(chainCalls) + 1
      ensures IsWebSocketPath(uri) ==> headers == WithCorsHeaders(old(headers), origin)
      ensures IsWebSocketPath(uri) && IsOptions(httpMethod) ==>
                status == Some(StatusOk) && chainCalls == old(chainCalls)
      ensures IsWebSocketPath(uri) && !IsOptions(httpMethod) ==>
                status == old(status) && chainCalls == old(chainCalls) + 1
    {
      if IsWebSocketPath(uri) {
        // The response's headers, set one by one.
        var h := headers;
        if ListedOrigin(origin) {
          h := h[AllowOrigin := origin.value];
        } else if LocalhostOrigin(origin) {
          // The localhost branch would echo the origin too, but its test implies the first one.
          assert false;
        }
        FixedHeadersInOrder(h);
        h := h[AllowCredentials := "true"];
        h := h[AllowMethods := "GET, POST, PUT, DELETE, OPTIONS"];
        h := h[AllowHeaders := "Origin, X-Requested-With, Content-Type, Accept, Authorization, Cache-Control"];
        h := h[MaxAge := "3600"];
        assert h == WithCorsHeaders(old(headers), origin);
        headers := h;
        if IsOptions(httpMethod) {
          status := Some(StatusOk);
          return;
        }
      }
      chainCalls := chainCalls + 1;
    }
  }
}
