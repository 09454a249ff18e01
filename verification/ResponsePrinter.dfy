/** `HttpResponse::serialize` and the relay of upstream responses. */
module ResponsePrinter {
  import opened Text
  import opened Messages
  import opened Spelling
  import opened MessageParser
  import opened Grammar
  import opened Printing

  function ConnectionHeader(keepAlive: bool): Header {
    Header("Connection", if keepAlive then "keep-alive" else "close")
  }

  function LengthHeader(body: string): Header {
    Header("Content-Length", Decimal(|body|))
  }

  predicate Has(headers: seq<Header>, lowerName: string) {
    exists h :: h in headers && Lower(h.name) == lowerName
  }

  /** The headers as sent: Content-Length and Connection are added when missing. */
  function Filled(r: HttpResponse): seq<Header> {
    r.headers
    + (if Has(r.headers, "content-length") then [] else [LengthHeader(r.body)])
    + (if Has(r.headers, "connection") then [] else [ConnectionHeader(r.keepAlive)])
  }

  /** The bytes of a response. */
  function Serialized(r: HttpResponse): string {
    Print(StatusLine(r.status, r.reason), Filled(r), r.body)
  }

  function JsonResponse(status: int, reason: string, json: string): HttpResponse {
    HttpResponse(status, reason, [Header("Content-Type", "application/json")], json, true)
  }

  /** A response that can be read back: printable parts, and a Content-Length header of its
      own, if it has one, that announces the body it carries. */
  ghost predicate Relayable(r: HttpResponse) {
    && IsInt32(r.status) && NoCrlf(r.reason) && GoodHeaders(r.headers)
    && |r.body| <= LONG_MAX
    && (Absent(r.headers, "Content-Length") || ContentLength(r.headers) == |r.body|)
  }

  // ---------------------------------------------------------------------------------
  // The added headers
  // ---------------------------------------------------------------------------------

  lemma NamesLowered()
    ensures Lower("Content-Length") == "content-length" && Lower("Connection") == "connection"
    ensures "content-length" != "connection"
  {
    assert |"content-length"| == 14 && |"connection"| == 10;
  }

  lemma HasIffPresent(headers: seq<Header>)
    ensures Has(headers, "content-length") <==> FindHeader(headers, "Content-Length").Some?
    ensures Has(headers, "connection") <==> FindHeader(headers, "Connection").Some?
  {
    NamesLowered();
    FindHeaderNone(headers, "Content-Length");
    FindHeaderNone(headers, "Connection");
  }

  lemma {:induction false} DecimalShape(n: nat)
    ensures IsTrimmed(Decimal(n)) && NoCrlf(Decimal(n))
  {
    DecimalDigits(n);
    var d := Decimal(n);
    assert d[0] in d && d[|d| - 1] in d;
    forall k: nat
      ensures !CrlfAt(d, k)
    {
      assert k < |d| ==> d[k] in d;
    }
  }

  lemma AddedHeadersGood(body: string, keepAlive: bool)
    ensures GoodHeader(LengthHeader(body)) && GoodHeader(ConnectionHeader(keepAlive))
  {
    DecimalShape(|body|);
    assert forall k: nat :: !CrlfAt("Content-Length", k) && !CrlfAt("Connection", k);
    assert forall k: nat :: !CrlfAt("keep-alive", k) && !CrlfAt("close", k);
  }

  lemma OneHeader(h: Header, name: string)
    ensures FindHeader([h], name) == if SameName(h.name, name) then Some(h.value) else None
  {
    assert [h][1..] == [];
  }

  /** Looking a header up in the filled list: an own header wins, an added one comes next. */
  lemma FilledLookup(r: HttpResponse)
    ensures FindHeader(Filled(r), "Content-Length")
         == if Has(r.headers, "content-length") then FindHeader(r.headers, "Content-Length")
            else Some(Decimal(|r.body|))
    ensures FindHeader(Filled(r), "Connection")
         == if Has(r.headers, "connection") then FindHeader(r.headers, "Connection")
            else Some(ConnectionHeader(r.keepAlive).value)
  {
    NamesLowered();
    HasIffPresent(r.headers);
    var a := if Has(r.headers, "content-length") then [] else [LengthHeader(r.body)];
    var b := if Has(r.headers, "connection") then [] else [ConnectionHeader(r.keepAlive)];
    OneHeader(LengthHeader(r.body), "Content-Length");
    OneHeader(LengthHeader(r.body), "Connection");
    OneHeader(ConnectionHeader(r.keepAlive), "Content-Length");
    OneHeader(ConnectionHeader(r.keepAlive), "Connection");
    FindHeaderSplit(r.headers + a, b, "Content-Length");
    FindHeaderSplit(r.headers, a, "Content-Length");
    FindHeaderSplit(r.headers + a, b, "Connection");
    FindHeaderSplit(r.headers, a, "Connection");
  }

  lemma FilledLength(r: HttpResponse)
    requires Relayable(r)
    ensures ContentLength(Filled(r)) == |r.body|
  {
    FilledLookup(r);
    HasIffPresent(r.headers);
    FindHeaderNone(r.headers, "Content-Length");
    StrtolOfDecimal(|r.body|);
  }

  /** The keep-alive wish a client reads off the printed response. */
  lemma FilledKeepAlive(r: HttpResponse)
    ensures KeepAlive(Filled(r), "HTTP/1.1")
         == if Has(r.headers, "connection") then KeepAlive(r.headers, "HTTP/1.1") else r.keepAlive
  {
    FilledLookup(r);
    HasIffPresent(r.headers);
    if !Has(r.headers, "connection") {
      if r.keepAlive {
        assert Lower("keep-alive") == "keep-alive";
        assert MatchAt("keep-alive", "keep-alive", 0);
        NoCloseInKeepAlive();
      } else {
        assert Lower("close") == "close";
        assert MatchAt("close", "close", 0);
      }
    }
  }

  // ---------------------------------------------------------------------------------
  // The bytes
  // ---------------------------------------------------------------------------------

  /** A response on the wire, byte by byte. */
  lemma SerializedBytes(r: HttpResponse)
    ensures Serialized(r)
         == "HTTP/1.1 " + SignedDecimal(r.status) + " " + r.reason + "\r\n" + (HeaderBytes(Filled(r)) + ("\r\n" + r.body))
  {
    PrintedBytes(Filled(r));
  }

  /** The headers on the wire: the own ones, then Content-Length and Connection if missing. */
  lemma FilledEntries(r: HttpResponse)
    ensures var length := Header("Content-Length", Decimal(|r.body|));
      var wish := Header("Connection", if r.keepAlive then "keep-alive" else "close");
      Filled(r) == r.headers + (if Missing(r.headers, "Content-Length") then [length] else [])
                             + (if Missing(r.headers, "Connection") then [wish] else [])
  {
    HasIffPresent(r.headers);
    FindHeaderExactly(r.headers, "Content-Length");
    FindHeaderExactly(r.headers, "Connection");
  }

  // ---------------------------------------------------------------------------------
  // Round trips
  // ---------------------------------------------------------------------------------

  /** Parsing a serialized response gives back status, reason, body and headers plus the
      added ones, with nothing left over. */
  lemma SerializeRoundTrip(r: HttpResponse)
    requires Relayable(r)
    ensures Feed(FRESH_RESPONSE, Serialized(r))
         == Parser(Complete, "", |r.body|, StatusLine(r.status, r.reason), Filled(r), r.body,
                   KeepAlive(Filled(r), "HTTP/1.1"))
  {
    FilledLength(r);
    AddedHeadersGood(r.body, r.keepAlive);
    ParsePrint(FRESH_RESPONSE.start, StatusLine(r.status, r.reason), Filled(r), r.body);
  }

  lemma FilledTwice(r: HttpResponse, keepAlive: bool)
    ensures Filled(r.(headers := Filled(r), keepAlive := keepAlive)) == Filled(r)
  {
    var filled := Filled(r);
    NamesLowered();
    FilledLookup(r);
    HasIffPresent(r.headers);
    HasIffPresent(filled);
  }

  /** Serializing what was read back gives the same bytes, whatever keep-alive flag the
      relaying side sets. */
  lemma SerializeStable(r: HttpResponse, keepAlive: bool)
    requires Relayable(r)
    ensures var p := Feed(FRESH_RESPONSE, Serialized(r));
      && p.phase == Complete
      && Serialized(Response(p).(keepAlive := keepAlive)) == Serialized(r)
  {
    SerializeRoundTrip(r);
    FilledTwice(r, keepAlive);
  }

  /** Every response the parser completes, from any byte stream, can be relayed. */
  lemma ParsedIsRelayable(stream: string, keepAlive: bool)
    requires Feed(FRESH_RESPONSE, stream).phase == Complete
    ensures var p := Feed(FRESH_RESPONSE, stream);
      Relayable(Response(p).(keepAlive := keepAlive))
  {
    RunWholesome(Append(FRESH_RESPONSE, stream));
  }

  /** Relay: the client reads the same status, reason and body that the upstream sent, the
      upstream's headers come first and unchanged, and nothing is left over. */
  lemma RelayRoundTrip(stream: string, keepAlive: bool)
    requires Feed(FRESH_RESPONSE, stream).phase == Complete
    ensures var p := Feed(FRESH_RESPONSE, stream);
      var q := Feed(FRESH_RESPONSE, Serialized(Response(p).(keepAlive := keepAlive)));
      && q.phase == Complete && q.buffer == ""
      && q.start == p.start && q.body == p.body && p.headers <= q.headers
  {
    ParsedIsRelayable(stream, keepAlive);
    SerializeRoundTrip(Response(Feed(FRESH_RESPONSE, stream)).(keepAlive := keepAlive));
  }

  /** The client is told what the relay will do with its connection exactly when the upstream
      sent no Connection header of its own or one that says the same. */
  lemma RelayTellsTheTruth(r: HttpResponse)
    requires Relayable(r)
    ensures Feed(FRESH_RESPONSE, Serialized(r)).keepAlive == r.keepAlive
      <==> FindHeader(r.headers, "Connection").None? || KeepAlive(r.headers, "HTTP/1.1") == r.keepAlive
  {
    SerializeRoundTrip(r);
    FilledKeepAlive(r);
    HasIffPresent(r.headers);
  }

  /** The case that occurs in practice: the upstream was asked to close and says so, and the
      client, whose connection is kept, reads "close". */
  lemma RelayedCloseMisleads(r: HttpResponse)
    requires Relayable(r) && r.keepAlive && FindHeader(r.headers, "Connection") == Some("close")
    ensures !Feed(FRESH_RESPONSE, Serialized(r)).keepAlive
  {
    RelayTellsTheTruth(r);
    assert Lower("close") == "close";
    assert MatchAt(Lower("close"), "close", 0);
  }

  // ---------------------------------------------------------------------------------
  // The loop
  // ---------------------------------------------------------------------------------

  /** The printing loop of `serialize`. */
  method Serialize(r: HttpResponse) returns (out: string)
    ensures out == Serialized(r)
  {
    ghost var prefix := PrintStart(StatusLine(r.status, r.reason)) + CRLF;
    out := "HTTP/1.1 " + SignedDecimal(r.status) + " " + r.reason + CRLF;
    var hasContentLength, hasConnection := false, false;
    for i := 0 to |r.headers|
      invariant out == prefix + Lines(PrintedLines(r.headers[..i]))
      invariant hasContentLength == Has(r.headers[..i], "content-length")
      invariant hasConnection == Has(r.headers[..i], "connection")
    {
      var h := r.headers[i];
      assert r.headers[..i + 1] == r.headers[..i] + [h];
      PrintOneMore(r.headers[..i], h, out, prefix);
      if Lower(h.name) == "content-length" { hasContentLength := true; }
      if Lower(h.name) == "connection" { hasConnection := true; }
      out := out + PrintHeader(h) + CRLF;
    }
    assert r.headers[..|r.headers|] == r.headers;
    ghost var printed := r.headers;
    if !hasContentLength {
      PrintOneMore(printed, LengthHeader(r.body), out, prefix);
      out := out + PrintHeader(LengthHeader(r.body)) + CRLF;
      printed := printed + [LengthHeader(r.body)];
    }
    if !hasConnection {
      PrintOneMore(printed, ConnectionHeader(r.keepAlive), out, prefix);
      out := out + PrintHeader(ConnectionHeader(r.keepAlive)) + CRLF;
      printed := printed + [ConnectionHeader(r.keepAlive)];
    }
    assert printed == Filled(r);
    PrintClosed(StatusLine(r.status, r.reason), printed, r.body, out, prefix);
    out := out + (CRLF + r.body);
  }
}
