/** The incremental HTTP/1.1 parsers. Requests and responses run the same phases over the same
    buffer and differ only in the start line, so the constructor of `start` tells them apart. */
module MessageParser {
  import opened Text
  import opened Messages
  import opened Seqs

  datatype Phase = StartLine | HeaderLines | Body | Complete | Error

  datatype Status = NeedMoreData | Done | Failed

  /** The fields of a parser object. `need` is `bodyBytesNeeded_`. */
  datatype Parser = Parser(
    phase: Phase, buffer: string, need: nat,
    start: Start, headers: seq<Header>, body: string, keepAlive: bool)

  /** The default-constructed and the reset request parser. */
  const FRESH_REQUEST: Parser :=
    Parser(StartLine, "", 0, RequestLine("", "", ""), [], "", true)

  /** The default-constructed response parser. */
  const FRESH_RESPONSE: Parser :=
    Parser(StartLine, "", 0, StatusLine(200, "OK"), [], "", true)

  function Request(p: Parser): HttpRequest
    requires p.start.RequestLine?
  {
    HttpRequest(p.start.verb, p.start.target, p.start.version, p.headers, p.body, p.keepAlive)
  }

  function Response(p: Parser): HttpResponse
    requires p.start.StatusLine?
  {
    HttpResponse(p.start.status, p.start.reason, p.headers, p.body, p.keepAlive)
  }

  /** The version that decides the keep-alive default. Responses always use HTTP/1.1. */
  function Version(start: Start): string {
    match start
    case RequestLine(_, _, version) => version
    case StatusLine(_, _) => "HTTP/1.1"
  }

  // ---------------------------------------------------------------------------------
  // One transition at a time
  // ---------------------------------------------------------------------------------

  function StartStep(p: Parser, i: nat): Parser
    requires i + 2 <= |p.buffer|
  {
    var r := ParseStart(p.start, p.buffer[..i]);
    if r.ok then p.(phase := HeaderLines, buffer := p.buffer[i + 2..], start := r.start)
    else p.(phase := Error, start := r.start)
  }

  function HeaderStep(p: Parser, i: nat): Parser
    requires i + 2 <= |p.buffer|
  {
    if i == 0 then
      p.(phase := Body, buffer := p.buffer[2..],
         need := ContentLength(p.headers), keepAlive := KeepAlive(p.headers, Version(p.start)))
    else
      match ParseHeaderLine(p.buffer[..i])
      case None => p.(phase := Error)
      case Some(h) => p.(buffer := p.buffer[i + 2..], headers := p.headers + [h])
  }

  function BodyStep(p: Parser): Parser
    requires p.need <= |p.buffer|
  {
    p.(phase := Complete, body := p.buffer[..p.need], buffer := p.buffer[p.need..])
  }

  /** The next transition, if the buffer already holds what it needs. */
  function Step(p: Parser): Option<Parser> {
    match p.phase
    case StartLine =>
      (match FindCrlf(p.buffer) case None => None case Some(i) => Some(StartStep(p, i)))
    case HeaderLines =>
      (match FindCrlf(p.buffer) case None => None case Some(i) => Some(HeaderStep(p, i)))
    case Body =>
      if |p.buffer| < p.need then None else Some(BodyStep(p))
    case Complete => None
    case Error => None
  }

  function Rank(phase: Phase): nat {
    match phase
    case StartLine => 3
    case HeaderLines => 2
    case Body => 1
    case Complete => 0
    case Error => 0
  }

  /** Transitions until the buffer runs dry or the message ends. Each header transition
      removes at least the two bytes of its line end. */
  function Run(p: Parser): (r: Parser)
    ensures r.start.RequestLine? == p.start.RequestLine?
    decreases Rank(p.phase), |p.buffer|
  {
    match Step(p)
    case None => p
    case Some(q) => Run(q)
  }

  /** Nothing is left to do after a run. */
  lemma {:induction false} RunSettles(p: Parser)
    ensures Step(Run(p)).None?
    decreases Rank(p.phase), |p.buffer|
  {
    if Step(p).Some? {
      RunSettles(Step(p).value);
    }
  }

  function Append(p: Parser, data: string): Parser {
    p.(buffer := p.buffer + data)
  }

  /** The parser after `consume(data)`. */
  function Feed(p: Parser, data: string): Parser {
    Run(Append(p, data))
  }

  /** The status `consume` reports for a call that takes the parser from `before` to `after`.
      A parser that had failed before the call falls through to the final return. */
  function Report(before: Phase, after: Phase): Status {
    if before == Error then Done
    else if after == Complete then Done
    else if after == Error then Failed
    else NeedMoreData
  }

  function FeedAll(p: Parser, chunks: seq<string>): Parser
    decreases |chunks|
  {
    if chunks == [] then p else FeedAll(Feed(p, chunks[0]), chunks[1..])
  }

  // ---------------------------------------------------------------------------------
  // Read boundaries do not matter
  // ---------------------------------------------------------------------------------

  /** A transition that is possible now happens in the same way with more bytes behind it. */
  lemma StepStable(p: Parser, more: string)
    requires Step(p).Some?
    ensures Step(Append(p, more)) == Some(Append(Step(p).value, more))
  {
    var b, c := p.buffer, p.buffer + more;
    if p.phase == Body {
      assert c[..p.need] == b[..p.need] && c[p.need..] == b[p.need..] + more;
    } else {
      FindCrlfStable(b, more);
      var i := FindCrlf(b).value;
      assert c[..i] == b[..i] && c[i + 2..] == b[i + 2..] + more;
    }
  }

  lemma {:induction false} RunAppend(p: Parser, more: string)
    ensures Run(Append(Run(p), more)) == Run(Append(p, more))
    decreases Rank(p.phase), |p.buffer|
  {
    if Step(p).Some? {
      StepStable(p, more);
      RunAppend(Step(p).value, more);
    }
  }

  /** Splitting a read in two makes no difference to any field of the parser. */
  lemma FeedSplit(p: Parser, a: string, b: string)
    ensures Feed(Feed(p, a), b) == Feed(p, a + b)
  {
    RunAppend(Append(p, a), b);
    assert p.buffer + a + b == p.buffer + (a + b);
  }

  /** Chunking invariance: any list of reads leaves the parser exactly as one read of their
      concatenation does, from any settled parser, also past Complete and past Error. */
  lemma {:induction false} ChunkingInvariance(p: Parser, chunks: seq<string>)
    requires Step(p).None?
    ensures FeedAll(p, chunks) == Feed(p, Flatten(chunks))
    decreases |chunks|
  {
    if chunks == [] {
      assert Append(p, "") == p;
    } else {
      RunSettles(Append(p, chunks[0]));
      ChunkingInvariance(Feed(p, chunks[0]), chunks[1..]);
      FeedSplit(p, chunks[0], Flatten(chunks[1..]));
    }
  }

  /** The status of the last read agrees with the status of the single read exactly when the
      parser had not failed before that last read, or had failed from the outset. */
  lemma ChunkedStatus(p: Parser, chunks: seq<string>, last: string)
    requires Step(p).None?
    ensures var before := FeedAll(p, chunks);
      var whole := Flatten(chunks) + last;
      (Report(before.phase, Feed(before, last).phase) == Report(p.phase, Feed(p, whole).phase))
        <==> (before.phase != Error || p.phase == Error)
  {
    ChunkingInvariance(p, chunks);
    var before := FeedAll(p, chunks);
    FeedSplit(p, Flatten(chunks), last);
  }

  /** They can differ: an empty first line is refused, and the next byte is then reported as
      a complete request, while both read at once are refused. */
  lemma StatusesDiffer()
    ensures var before := Feed(FRESH_REQUEST, "\r\n");
      && Report(FRESH_REQUEST.phase, before.phase) == Failed
      && Report(before.phase, Feed(before, "x").phase) == Done
      && Report(FRESH_REQUEST.phase, Feed(FRESH_REQUEST, "\r\n" + "x").phase) == Failed
  {
    var p := Append(FRESH_REQUEST, "\r\n");
    assert p.buffer == "" + CRLF + "";
    FindCrlfAfterLine("", "");
    var q := StartStep(p, 0);
    assert Step(p) == Some(q) && q.phase == Error && Run(q) == q;
    FeedSplit(FRESH_REQUEST, "\r\n", "x");
  }

  // ---------------------------------------------------------------------------------
  // What a parsed message satisfies
  // ---------------------------------------------------------------------------------

  /** Every header and start line taken so far can be printed and read back, and a finished
      body has the announced length. */
  ghost predicate Wholesome(p: Parser) {
    && (forall h :: h in p.headers ==> GoodHeader(h))
    && (p.phase in {HeaderLines, Body, Complete} ==> GoodStart(p.start))
    && (p.phase in {Body, Complete} ==>
          p.need == ContentLength(p.headers) && p.keepAlive == KeepAlive(p.headers, Version(p.start)))
    && (p.phase == Complete ==> |p.body| == p.need)
  }

  lemma StepWholesome(p: Parser)
    requires Wholesome(p) && Step(p).Some?
    ensures Wholesome(Step(p).value)
  {
    if p.phase != Body {
      var i := FindCrlf(p.buffer).value;
      var line := p.buffer[..i];
      forall k: nat
        ensures !CrlfAt(line, k)
      {
        assert k < i ==> !CrlfAt(p.buffer, k);
      }
      if p.phase == StartLine && ParseStart(p.start, line).ok {
        ParsedStartGood(p.start, line);
      }
      if p.phase == HeaderLines && i > 0 && ParseHeaderLine(line).Some? {
        ParsedHeaderGood(line);
      }
    }
  }

  lemma {:induction false} RunWholesome(p: Parser)
    requires Wholesome(p)
    ensures Wholesome(Run(p))
    decreases Rank(p.phase), |p.buffer|
  {
    var next := Step(p);
    if next.Some? {
      assert Run(p) == Run(next.value);
      StepWholesome(p);
      RunWholesome(next.value);
    }
  }

  // ---------------------------------------------------------------------------------
  // The parser object
  // ---------------------------------------------------------------------------------

  /** `HttpParser` and `HttpResponseParser`: fields changed in place by `consume`. */
  class HttpParser {
    var phase: Phase
    var buffer: string
    var need: nat
    var start: Start
    var headers: seq<Header>
    var body: string
    var keepAlive: bool

    /** All fields as one value. */
    function Snapshot(): Parser
      reads this
    {
      Parser(phase, buffer, need, start, headers, body, keepAlive)
    }

    constructor ForRequests()
      ensures Snapshot() == FRESH_REQUEST
    {
      phase, buffer, need := StartLine, "", 0;
      start, headers, body, keepAlive := RequestLine("", "", ""), [], "", true;
    }

    constructor ForResponses()
      ensures Snapshot() == FRESH_RESPONSE
    {
      phase, buffer, need := StartLine, "", 0;
      start, headers, body, keepAlive := StatusLine(200, "OK"), [], "", true;
    }

    /** `reset` of either parser. */
    method Reset()
      modifies this
      ensures Snapshot() == if old(start).RequestLine? then FRESH_REQUEST else FRESH_RESPONSE
    {
      phase, buffer, need := StartLine, "", 0;
      start := if start.RequestLine? then RequestLine("", "", "") else StatusLine(200, "OK");
      headers, body, keepAlive := [], "", true;
    }

    /** Takes one line off the front of the buffer. */
    method ExtractLine() returns (found: bool, line: string, pos: nat)
      ensures found == FindCrlf(buffer).Some?
      ensures found ==> pos == FindCrlf(buffer).value + 2 && line == buffer[..pos - 2]
    {
      match FindCrlf(buffer)
      case None => found, line, pos := false, "", 0;
      case Some(i) => found, line, pos := true, buffer[..i], i + 2;
    }

    method Consume(data: string) returns (status: Status)
      modifies this
      ensures Snapshot() == Feed(old(Snapshot()), data)
      ensures status == Report(old(phase), phase)
    {
      buffer := buffer + data;
      status := Process();
    }

    /** `process`: each block runs when its phase has been reached and returns early when
        the buffer runs dry or a line is refused. */
    method Process() returns (status: Status)
      modifies this
      ensures Snapshot() == Run(old(Snapshot()))
      ensures status == Report(old(phase), phase)
    {
      if phase == StartLine {
        TakeStartLine();
        if phase == StartLine { return NeedMoreData; }
        if phase == Error { return Failed; }
      }
      if phase == HeaderLines {
        TakeHeaderLines();
        if phase == HeaderLines { return NeedMoreData; }
        if phase == Error { return Failed; }
      }
      if phase == Body {
        if |buffer| < need { return NeedMoreData; }
        ghost var next := BodyStep(Snapshot());
        body := buffer[..need];
        buffer := buffer[need..];
        phase := Complete;
        assert Snapshot() == next == Run(next);
      }
      status := Done;
    }

    /** The request-line or status-line block of `process`. */
    method TakeStartLine()
      requires phase == StartLine
      modifies this
      ensures Run(Snapshot()) == Run(old(Snapshot()))
      ensures phase == StartLine ==> Snapshot() == old(Snapshot()) && Step(Snapshot()).None?
      ensures phase in {StartLine, HeaderLines, Error}
    {
      var found, line, pos := ExtractLine();
      if !found { return; }
      ghost var next := StartStep(Snapshot(), pos - 2);
      var r := ParseStart(start, line);
      start := r.start;
      if r.ok {
        buffer := buffer[pos..];
        phase := HeaderLines;
      } else {
        phase := Error;
      }
      assert Snapshot() == next;
    }

    /** The header loop of `process`. */
    method TakeHeaderLines()
      requires phase == HeaderLines
      modifies this
      ensures Run(Snapshot()) == Run(old(Snapshot()))
      ensures phase == HeaderLines ==> Step(Snapshot()).None?
      ensures phase in {HeaderLines, Body, Error}
    {
      while true
        invariant phase == HeaderLines && Run(Snapshot()) == Run(old(Snapshot()))
        decreases |buffer|
      {
        var found, line, pos := ExtractLine();
        if !found { return; }
        ghost var next := HeaderStep(Snapshot(), pos - 2);
        if line == "" {
          buffer := buffer[pos..];
          need, keepAlive := ContentLength(headers), KeepAlive(headers, Version(start));
          phase := Body;
          assert Snapshot() == next;
          return;
        }
        var h := ParseHeaderLine(line);
        if h.None? {
          phase := Error;
          assert Snapshot() == next;
          return;
        }
        headers := headers + [h.value];
        buffer := buffer[pos..];
        assert Snapshot() == next;
      }
    }
  }
}
