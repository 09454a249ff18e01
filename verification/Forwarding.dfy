/** The request rebuild and the upstream conversation of `LoadBalancer::proxyRequest`. */
module Forwarding {
  import opened Text
  import opened Seqs
  import opened Messages
  import opened Spelling
  import opened MessageParser
  import opened Grammar
  import opened Printing

  const CLOSE: Header := Header("Connection", "close")

  /** `strcasecmp(name, "connection") == 0`, which looks no further than a NUL. */
  predicate IsConnection(name: string) {
    Lower(CString(name)) == "connection"
  }

  function Replaced(headers: seq<Header>): (r: seq<Header>)
    ensures |r| == |headers|
  {
    seq(|headers|, i requires 0 <= i < |headers| => if IsConnection(headers[i].name) then CLOSE else headers[i])
  }

  predicate HasConnection(headers: seq<Header>) {
    exists h :: h in headers && IsConnection(h.name)
  }

  /** Every Connection header becomes `Connection: close`; one is appended if there was none. */
  function Forwarded(headers: seq<Header>): seq<Header> {
    if HasConnection(headers) then Replaced(headers) else Replaced(headers) + [CLOSE]
  }

  /** The bytes sent upstream for a request. */
  function Rebuilt(req: HttpRequest): string {
    Print(RequestLine(req.verb, req.target, req.version), Forwarded(req.headers), req.body)
  }

  // ---------------------------------------------------------------------------------
  // What forwarding does to the headers
  // ---------------------------------------------------------------------------------

  /** The headers that are not Connection headers, in order. */
  function Others(headers: seq<Header>): seq<Header> {
    if headers == [] then []
    else (if IsConnection(headers[0].name) then [] else [headers[0]]) + Others(headers[1..])
  }

  lemma CloseIsConnection()
    ensures IsConnection(CLOSE.name) && SameName(CLOSE.name, "Connection") && GoodHeader(CLOSE)
  {
    assert FindChar("Connection", 0 as char, 0) == None;
    assert Lower("Connection") == "connection";
    assert forall k: nat :: !CrlfAt("Connection", k) && !CrlfAt("close", k);
  }

  lemma {:induction false} OthersSplit(a: seq<Header>, b: seq<Header>)
    ensures Others(a + b) == Others(a) + Others(b)
  {
    if a == [] {
      assert a + b == b;
    } else {
      assert (a + b)[1..] == a[1..] + b;
      OthersSplit(a[1..], b);
    }
  }

  lemma {:induction false} ReplacedOthers(headers: seq<Header>)
    ensures Others(Replaced(headers)) == Others(headers)
  {
    if headers != [] {
      CloseIsConnection();
      assert Replaced(headers)[1..] == Replaced(headers[1..]);
      ReplacedOthers(headers[1..]);
    }
  }

  /** Forwarding keeps every other header in order, and what it leaves of Connection headers
      is at least one, each of them `Connection: close`. */
  lemma ForwardedHeaders(headers: seq<Header>)
    ensures Others(Forwarded(headers)) == Others(headers)
    ensures CLOSE in Forwarded(headers)
    ensures forall h :: h in Forwarded(headers) && IsConnection(h.name) ==> h == CLOSE
  {
    ReplacedOthers(headers);
    CloseIsConnection();
    OthersSplit(Replaced(headers), [CLOSE]);
    assert Others([CLOSE]) == [] by { assert [CLOSE][1..] == []; }
    if HasConnection(headers) {
      var h :| h in headers && IsConnection(h.name);
      var i :| 0 <= i < |headers| && headers[i] == h;
      assert Replaced(headers)[i] == CLOSE;
    }
  }

  lemma ForwardedTwice(headers: seq<Header>)
    ensures Forwarded(Forwarded(headers)) == Forwarded(headers)
  {
    var once := Forwarded(headers);
    ForwardedHeaders(headers);
    CloseIsConnection();
    assert HasConnection(once);
    forall i | 0 <= i < |once|
      ensures Replaced(once)[i] == once[i]
    {
      assert once[i] in once;
    }
    assert Replaced(once) == once;
  }

  lemma ForwardedGood(headers: seq<Header>)
    requires GoodHeaders(headers)
    ensures GoodHeaders(Forwarded(headers))
  {
    CloseIsConnection();
    forall h | h in Replaced(headers)
      ensures GoodHeader(h)
    {
      var i :| 0 <= i < |headers| && Replaced(headers)[i] == h;
      assert headers[i] in headers;
    }
  }

  /** A name that matches "Connection" byte for byte also matches up to its first NUL. */
  lemma SameNameIsConnection(name: string)
    requires SameName(name, "Connection")
    ensures IsConnection(name)
  {
    assert Lower("Connection") == "connection";
    assert |name| == |Lower(name)| == 10;
    forall i | 0 <= i < |name|
      ensures name[i] != 0 as char
    {
      assert Lower(name)[i] == "connection"[i];
      assert Lower(name)[i] == ToLower(name[i]);
    }
    assert FindChar(name, 0 as char, 0) == None;
  }

  // ---------------------------------------------------------------------------------
  // Which headers are forwarded as they are
  // ---------------------------------------------------------------------------------

  /** The name is "connection" in any case, possibly followed by a NUL and anything else. */
  predicate NamesConnection(name: string) {
    && |name| >= 10 && (|name| > 10 ==> name[10] == 0 as char)
    && forall k :: 0 <= k < 10 ==> SameLetter(name[k], "Connection"[k])
  }

  lemma NoNulInside(name: string)
    requires |name| >= 10 && forall k :: 0 <= k < 10 ==> SameLetter(name[k], "Connection"[k])
    ensures forall k :: 0 <= k < 10 ==> name[k] != 0 as char
  {
    forall k | 0 <= k < 10
      ensures name[k] != 0 as char
    {
      SameLetterExactly(name[k], "Connection"[k]);
    }
  }

  lemma IsConnectionExactly(name: string)
    ensures IsConnection(name) <==> NamesConnection(name)
  {
    var c := CString(name);
    assert Lower("Connection") == "connection";
    SpelledExactly(c, "Connection");
    assert IsConnection(name) <==> Spelled(c, "Connection");
    if NamesConnection(name) {
      NoNulInside(name);
      assert |c| == 10;
    }
  }

  /** Entry by entry: a header whose name is not "connection" is forwarded as it is, each of
      the others becomes `Connection: close`, and one is added at the end if there was none. */
  lemma ForwardedEntries(headers: seq<Header>)
    ensures var out := Forwarded(headers);
      var close := Header("Connection", "close");
      && |headers| <= |out|
      && (forall i :: 0 <= i < |headers| ==>
            out[i] == if NamesConnection(headers[i].name) then close else headers[i])
      && out[|headers|..] == if exists i :: 0 <= i < |headers| && NamesConnection(headers[i].name) then [] else [close]
  {
    forall i | 0 <= i < |headers|
      ensures IsConnection(headers[i].name) <==> NamesConnection(headers[i].name)
    {
      IsConnectionExactly(headers[i].name);
    }
    forall h | h in headers
      ensures IsConnection(h.name) <==> NamesConnection(h.name)
    {
      IsConnectionExactly(h.name);
    }
  }

  predicate NoNul(name: string) {
    forall k :: 0 <= k < |name| ==> name[k] != 0 as char
  }

  /** A header that answers to another name than Connection is none of the replaced ones. */
  lemma OtherNames(name: string, wanted: string)
    requires NoNul(wanted) && SameName(name, wanted) && !SameName(wanted, "Connection")
    ensures !IsConnection(name)
  {
    SpelledExactly(name, wanted);
    forall k | 0 <= k < |name|
      ensures name[k] != 0 as char
    {
      SameLetterExactly(name[k], wanted[k]);
      assert wanted[k] != 0 as char;
    }
    assert FindChar(name, 0 as char, 0) == None;
    assert Lower("Connection") == "connection";
  }

  lemma {:induction false} ReplacedLookup(headers: seq<Header>, wanted: string)
    requires NoNul(wanted) && !SameName(wanted, "Connection")
    ensures FindHeader(Replaced(headers), wanted) == FindHeader(headers, wanted)
  {
    if headers != [] {
      ReplacedLookup(headers[1..], wanted);
      assert Replaced(headers)[1..] == Replaced(headers[1..]);
      if SameName(headers[0].name, wanted) {
        OtherNames(headers[0].name, wanted);
      }
    }
  }

  /** The upstream finds every header but Connection where the client put it. */
  lemma ForwardedLookup(headers: seq<Header>, wanted: string)
    requires NoNul(wanted) && !SameName(wanted, "Connection")
    ensures FindHeader(Forwarded(headers), wanted) == FindHeader(headers, wanted)
  {
    ReplacedLookup(headers, wanted);
    FindHeaderSplit(Replaced(headers), [CLOSE], wanted);
    assert [CLOSE][1..] == [];
  }

  lemma ForwardedLength(headers: seq<Header>)
    ensures ContentLength(Forwarded(headers)) == ContentLength(headers)
  {
    assert |Lower("Connection")| == 10 && |Lower("Content-Length")| == 14;
    ForwardedLookup(headers, "Content-Length");
  }

  lemma {:induction false} FirstConnection(headers: seq<Header>)
    requires exists h :: h in headers && SameName(h.name, "Connection")
    requires forall h :: h in headers && SameName(h.name, "Connection") ==> h == CLOSE
    ensures FindHeader(headers, "Connection") == Some("close")
  {
    assert headers == [headers[0]] + headers[1..];
    if SameName(headers[0].name, "Connection") {
      assert headers[0] in headers;
    } else {
      FirstConnection(headers[1..]);
    }
  }

  /** Whatever the client asked for, the upstream is told to close. */
  lemma ForwardedCloses(headers: seq<Header>, version: string)
    ensures !KeepAlive(Forwarded(headers), version)
  {
    var fwd := Forwarded(headers);
    ForwardedHeaders(headers);
    CloseIsConnection();
    forall h | h in fwd && SameName(h.name, "Connection")
      ensures h == CLOSE
    {
      SameNameIsConnection(h.name);
    }
    FirstConnection(fwd);
    assert Lower("close") == "close";
    assert MatchAt(Lower("close"), "close", 0);
  }

  /** The rebuilt request on the wire, byte by byte. */
  lemma RebuiltBytes(req: HttpRequest)
    ensures Rebuilt(req)
         == req.verb + " " + req.target + " " + req.version + "\r\n" + (HeaderBytes(Forwarded(req.headers)) + ("\r\n" + req.body))
  {
    PrintedBytes(Forwarded(req.headers));
  }

  // ---------------------------------------------------------------------------------
  // Forwarding round trip
  // ---------------------------------------------------------------------------------

  /** For every request the parser completes from any byte stream, parsing the rebuilt bytes
      completes with an empty leftover and the same method, target, version and body; the
      headers are the forwarded ones and the upstream sees keep-alive off. */
  lemma ForwardRoundTrip(stream: string)
    requires Feed(FRESH_REQUEST, stream).phase == Complete
    ensures var p := Feed(FRESH_REQUEST, stream);
      Feed(FRESH_REQUEST, Rebuilt(Request(p)))
        == p.(buffer := "", headers := Forwarded(p.headers), keepAlive := false)
  {
    RunWholesome(Append(FRESH_REQUEST, stream));
    var p := Feed(FRESH_REQUEST, stream);
    ForwardedGood(p.headers);
    ForwardedLength(p.headers);
    ForwardedCloses(p.headers, p.start.version);
    ParsePrint(FRESH_REQUEST.start, p.start, Forwarded(p.headers), p.body);
  }

  /** A second load balancer in the chain sends exactly the bytes it received. */
  lemma ForwardIdempotent(stream: string)
    requires Feed(FRESH_REQUEST, stream).phase == Complete
    ensures var once := Rebuilt(Request(Feed(FRESH_REQUEST, stream)));
      var q := Feed(FRESH_REQUEST, once);
      q.phase == Complete && Rebuilt(Request(q)) == once
  {
    ForwardRoundTrip(stream);
    ForwardedTwice(Feed(FRESH_REQUEST, stream).headers);
  }

  // ---------------------------------------------------------------------------------
  // The loops
  // ---------------------------------------------------------------------------------

  /** What one pass of the loop appends. */
  lemma ReplaceOneMore(headers: seq<Header>, i: nat, out: string, prefix: string)
    requires i < |headers| && out == prefix + Lines(PrintedLines(Replaced(headers[..i])))
    ensures HasConnection(headers[..i + 1]) == (HasConnection(headers[..i]) || IsConnection(headers[i].name))
    ensures out + PrintHeader(if IsConnection(headers[i].name) then CLOSE else headers[i]) + CRLF
         == prefix + Lines(PrintedLines(Replaced(headers[..i + 1])))
  {
    var h := headers[i];
    var h' := if IsConnection(h.name) then CLOSE else h;
    assert headers[..i + 1] == headers[..i] + [h];
    assert Replaced(headers[..i + 1]) == Replaced(headers[..i]) + [h'];
    PrintOneMore(Replaced(headers[..i]), h', out, prefix);
  }

  lemma CloseLine()
    ensures PrintHeader(CLOSE) == "Connection: close"
  {
  }

  /** The string-building loop of `proxyRequest`. */
  method Rebuild(req: HttpRequest) returns (out: string)
    ensures out == Rebuilt(req)
  {
    CloseLine();
    ghost var start := RequestLine(req.verb, req.target, req.version);
    ghost var prefix := PrintStart(start) + CRLF;
    out := req.verb + " " + req.target + " " + req.version + CRLF;
    var sawConnection := false;
    for i := 0 to |req.headers|
      invariant out == prefix + Lines(PrintedLines(Replaced(req.headers[..i])))
      invariant sawConnection == HasConnection(req.headers[..i])
    {
      ReplaceOneMore(req.headers, i, out, prefix);
      if IsConnection(req.headers[i].name) {
        sawConnection := true;
        out := out + "Connection: close" + CRLF;
      } else {
        out := out + PrintHeader(req.headers[i]) + CRLF;
      }
    }
    assert req.headers[..|req.headers|] == req.headers;
    if !sawConnection {
      PrintOneMore(Replaced(req.headers), CLOSE, out, prefix);
      out := out + "Connection: close" + CRLF;
    }
    PrintClosed(start, Forwarded(req.headers), req.body, out, prefix);
    out := out + (CRLF + req.body);
  }

  /** The answer in a byte stream, if it holds a complete one. */
  function AnswerIn(stream: string): Option<HttpResponse> {
    var p := Feed(FRESH_RESPONSE, stream);
    if p.phase == Complete then Some(Response(p)) else None
  }

  /** A read that ends the message decides the outcome, whatever else would have followed. */
  lemma LastRead(done: string, chunk: string, rest: string)
    ensures var now := Feed(Feed(FRESH_RESPONSE, done), chunk);
      && now == Feed(FRESH_RESPONSE, done + chunk)
      && (now.phase == Complete ==> AnswerIn(done + chunk + rest) == Some(Response(now)))
      && (now.phase == Error ==> AnswerIn(done + chunk + rest) == None)
  {
    FeedSplit(FRESH_RESPONSE, done, chunk);
    FeedSplit(FRESH_RESPONSE, done + chunk, rest);
  }

  /** The receive loop of `proxyRequest`: `chunks` are the results of `recv` up to the one
      that returns nothing. However the bytes were cut, the outcome is that of the stream. */
  method ReadAnswer(chunks: seq<string>) returns (answer: Option<HttpResponse>)
    ensures answer == AnswerIn(Flatten(chunks))
  {
    var parser := new HttpParser.ForResponses();
    ghost var done := "";
    assert Append(FRESH_RESPONSE, "") == FRESH_RESPONSE && "" + Flatten(chunks) == Flatten(chunks);
    for i := 0 to |chunks|
      invariant done + Flatten(chunks[i..]) == Flatten(chunks)
      invariant parser.Snapshot() == Feed(FRESH_RESPONSE, done)
      invariant parser.phase !in {Complete, Error}
    {
      ghost var rest := Flatten(chunks[i + 1..]);
      assert chunks[i..][1..] == chunks[i + 1..];
      assert done + (chunks[i] + rest) == done + chunks[i] + rest;
      LastRead(done, chunks[i], rest);
      var status := parser.Consume(chunks[i]);
      if status == Done {
        return Some(Response(parser.Snapshot()));
      }
      if status == Failed {
        return None;
      }
      done := done + chunks[i];
    }
    assert done + Flatten([]) == done;
    return None;
  }
}
