/** The two programs together: the load balancer in front of the repository's own server. */
module Deployment {
  import opened Text
  import opened Messages
  import opened MessageParser
  import opened Forwarding
  import opened ResponsePrinter
  import opened Workers

  /** What the server writes for the forwarded form of a request. */
  function ServerBytes(asked: HttpRequest, server: Env): string {
    Serialized(Reply(HttpServer, Request(Feed(FRESH_REQUEST, Rebuilt(asked))), server))
  }

  /** The upstream exchange of the load balancer, when it takes place, is with that server:
      the bytes received are what the server writes or, if the connection breaks, a prefix. */
  predicate TalksTo(upstream: Upstream, written: string) {
    upstream.Exchange? && upstream.stream.Some? ==> upstream.stream.value <= written
  }

  /** A response of the programs' own making reads back, with the flag that was set. */
  lemma OwnResponseReads(status: int, reason: string, json: string, keepAlive: bool)
    requires IsInt32(status) && NoCrlf(reason) && |json| <= LONG_MAX
    ensures var r := JsonResponse(status, reason, json).(keepAlive := keepAlive);
      var got := Feed(FRESH_RESPONSE, Serialized(r));
      && got.phase == Complete && got.buffer == ""
      && got.start == StatusLine(status, reason) && got.body == json && got.keepAlive == keepAlive
  {
    var h := Header("Content-Type", "application/json");
    var r := JsonResponse(status, reason, json).(keepAlive := keepAlive);
    assert forall k: nat :: !CrlfAt("Content-Type", k) && !CrlfAt("application/json", k);
    assert GoodHeader(h);
    assert Absent(r.headers, "Content-Length") && FindHeader(r.headers, "Connection").None? by {
      assert |Lower("Content-Type")| == 12 && |Lower("Content-Length")| == 14 && |Lower("Connection")| == 10;
      OneHeader(h, "Connection");
    }
    SerializeRoundTrip(r);
    RelayTellsTheTruth(r);
  }

  lemma BadGatewayReads(json: string, keepAlive: bool)
    requires |json| <= 100
    ensures var got := Feed(FRESH_RESPONSE, Serialized(BadGateway(json).(keepAlive := keepAlive)));
      && got.phase == Complete && got.buffer == ""
      && got.start == StatusLine(502, "Bad Gateway") && got.keepAlive == keepAlive
  {
    assert forall k: nat :: !CrlfAt("Bad Gateway", k);
    OwnResponseReads(502, "Bad Gateway", json, keepAlive);
  }

  /** What a client whose bytes are refused reads: a 400 that says the connection closes. */
  lemma RefusalReads()
    ensures var got := Feed(FRESH_RESPONSE, Serialized(BAD_REQUEST));
      && got.phase == Complete && got.buffer == ""
      && got.start == StatusLine(400, "Bad Request") && got.body == "{\"error\":\"bad request\"}"
      && !got.keepAlive
  {
    assert forall k: nat :: !CrlfAt("Bad Request", k);
    OwnResponseReads(400, "Bad Request", "{\"error\":\"bad request\"}", false);
  }

  /** The server sees the request with `Connection: close`, and what it writes reads back as
      the router's answer with that wish. */
  lemma ServerAnswers(stream: string, server: Env)
    requires Feed(FRESH_REQUEST, stream).phase == Complete
    requires Relayable(server.routed) && Absent(server.routed.headers, "Connection")
    ensures var asked := Request(Feed(FRESH_REQUEST, stream));
      var sent := server.routed.(keepAlive := false);
      && ServerBytes(asked, server) == Serialized(sent)
      && Feed(FRESH_RESPONSE, Serialized(sent))
           == Parser(Complete, "", |sent.body|, StatusLine(sent.status, sent.reason), Filled(sent), sent.body, false)
  {
    ForwardRoundTrip(stream);
    var sent := server.routed.(keepAlive := false);
    SerializeRoundTrip(sent);
    FindHeaderNone(sent.headers, "Connection");
    HasIffPresent(sent.headers);
    FilledKeepAlive(sent);
  }

  /** Only the whole of a message that leaves nothing over is a complete answer. */
  lemma OnlyTheWhole(part: string, whole: string)
    requires part <= whole && Feed(FRESH_RESPONSE, whole).phase == Complete && Feed(FRESH_RESPONSE, whole).buffer == ""
    ensures AnswerIn(part).Some? <==> part == whole
  {
    var rest := whole[|part|..];
    assert whole == part + rest;
    FeedSplit(FRESH_RESPONSE, part, rest);
  }

  /** End to end, for every request that a client's bytes complete, every answer of the router
      that names neither Connection nor a wrong length, and every outcome of the exchange.  If
      the server's response arrives whole, the client reads the router's status, reason and
      body; otherwise it reads a 502.  It reads "keep-alive" exactly when it asked for it and
      an exchange was begun that failed: the server saw `Connection: close` and says so, and
      the load balancer relays that even when it keeps its own connection open, which it does
      whenever the client asked for it and an exchange was begun. */
  lemma WhatTheClientReads(stream: string, balancer: Env, server: Env)
    requires Feed(FRESH_REQUEST, stream).phase == Complete
    requires Relayable(server.routed) && Absent(server.routed.headers, "Connection")
    requires TalksTo(balancer.upstream, ServerBytes(Request(Feed(FRESH_REQUEST, stream)), server))
    ensures var asked := Request(Feed(FRESH_REQUEST, stream));
      var completed := balancer.upstream == Exchange(Some(ServerBytes(asked, server)));
      var got := Feed(FRESH_RESPONSE, Serialized(Reply(LoadBalancer, asked, balancer)));
      && got.phase == Complete && got.buffer == ""
      && got.start == (if completed then StatusLine(server.routed.status, server.routed.reason)
                       else StatusLine(502, "Bad Gateway"))
      && (completed ==> got.body == server.routed.body)
      && (got.keepAlive <==> asked.keepAlive && balancer.upstream.Exchange? && !completed)
      && (Reply(LoadBalancer, asked, balancer).keepAlive <==> asked.keepAlive && balancer.upstream.Exchange?)
  {
    ServerAnswers(stream, server);
    var asked := Request(Feed(FRESH_REQUEST, stream));
    var written := ServerBytes(asked, server);
    match balancer.upstream
    case NoneHealthy => BadGatewayReads("{\"error\":\"no healthy upstream\"}", false);
    case NoSocket => BadGatewayReads("{\"error\":\"upstream connect failed\"}", false);
    case Exchange(received) =>
      if received.Some? {
        OnlyTheWhole(received.value, written);
      }
      if received == Some(written) {
        RelayedAnswer(server.routed.(keepAlive := false), asked.keepAlive);
      } else {
        BadGatewayReads("{\"error\":\"upstream request failed\"}", asked.keepAlive);
      }
  }

  /** The server's answer relayed with any flag still says what the server said. */
  lemma RelayedAnswer(sent: HttpResponse, keepAlive: bool)
    requires Relayable(sent) && !Feed(FRESH_RESPONSE, Serialized(sent)).keepAlive
    ensures var answer := AnswerIn(Serialized(sent));
      && answer.Some?
      && var got := Feed(FRESH_RESPONSE, Serialized(answer.value.(keepAlive := keepAlive)));
         && got.phase == Complete && got.buffer == "" && !got.keepAlive
         && got.start == StatusLine(sent.status, sent.reason) && got.body == sent.body
  {
    SerializeRoundTrip(sent);
    SerializeStable(sent, keepAlive);
  }
}
