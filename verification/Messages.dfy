/** HTTP messages, header lookup, and the line-level parsers with the printers they undo. */
module Messages {
  import opened Text

  datatype Header = Header(name: string, value: string)

  datatype HttpRequest = HttpRequest(
    verb: string, target: string, version: string, headers: seq<Header>, body: string, keepAlive: bool)

  datatype HttpResponse = HttpResponse(
    status: int, reason: string, headers: seq<Header>, body: string, keepAlive: bool)

  // ---------------------------------------------------------------------------------
  // Header lookup
  // ---------------------------------------------------------------------------------

  /** Header names compare without regard to ASCII case. */
  predicate SameName(a: string, b: string) {
    Lower(a) == Lower(b)
  }

  /** The value of the first header called `name`. */
  function FindHeader(headers: seq<Header>, name: string): Option<string> {
    if headers == [] then None
    else if SameName(headers[0].name, name) then Some(headers[0].value)
    else FindHeader(headers[1..], name)
  }

  ghost predicate Absent(headers: seq<Header>, name: string) {
    forall h :: h in headers ==> !SameName(h.name, name)
  }

  lemma {:induction false} FindHeaderNone(headers: seq<Header>, name: string)
    ensures FindHeader(headers, name).None? <==> Absent(headers, name)
  {
    if headers != [] {
      FindHeaderNone(headers[1..], name);
      assert headers == [headers[0]] + headers[1..];
    }
  }

  lemma {:induction false} FindHeaderSplit(a: seq<Header>, b: seq<Header>, name: string)
    ensures FindHeader(a + b, name)
         == if FindHeader(a, name).Some? then FindHeader(a, name) else FindHeader(b, name)
  {
    if a == [] {
      assert a + b == b;
    } else {
      assert (a + b)[1..] == a[1..] + b;
      FindHeaderSplit(a[1..], b, name);
    }
  }

  /** `findHeader`: the scan that stops at the first match. */
  method LookupHeader(headers: seq<Header>, name: string) returns (value: Option<string>)
    ensures value == FindHeader(headers, name)
  {
    for i := 0 to |headers|
      invariant FindHeader(headers[i..], name) == FindHeader(headers, name)
    {
      assert headers[i..][1..] == headers[i + 1..];
      if SameName(headers[i].name, name) {
        return Some(headers[i].value);
      }
    }
    return None;
  }

  /** The body length announced by the headers: 0 unless Content-Length starts with a
      non-negative number, which `strtol` saturates. */
  function ContentLength(headers: seq<Header>): nat {
    match FindHeader(headers, "Content-Length")
    case None => 0
    case Some(v) =>
      match Strtol(v)
      case NoNumber => 0
      case Number(n) => if n < 0 then 0 else n
  }

  /** Whether the sender wants the connection kept. */
  function KeepAlive(headers: seq<Header>, version: string): bool {
    match FindHeader(headers, "Connection")
    case None => version == "HTTP/1.1"
    case Some(v) =>
      if Contains(Lower(v), "close") then false
      else if Contains(Lower(v), "keep-alive") then true
      else version == "HTTP/1.1"
  }

  // ---------------------------------------------------------------------------------
  // Header lines
  // ---------------------------------------------------------------------------------

  function ParseHeaderLine(line: string): Option<Header> {
    match FindChar(line, ':', 0)
    case None => None
    case Some(colon) =>
      var name := Trimmed(line[..colon]);
      if name == "" then None
      else Some(Header(name, Trimmed(line[colon + 1..])))
  }

  function PrintHeader(h: Header): string {
    h.name + ": " + h.value
  }

  /** What a header taken from a line always satisfies, and what printing needs. */
  ghost predicate GoodHeader(h: Header) {
    && h.name != "" && IsTrimmed(h.name) && IsTrimmed(h.value)
    && ':' !in h.name && NoCrlf(h.name) && NoCrlf(h.value)
  }

  /** Trimming a part of a line keeps what the line guarantees. */
  lemma TrimmedPart(line: string, i: nat, j: nat, c: char)
    requires NoCrlf(line) && i <= j <= |line|
    ensures IsTrimmed(Trimmed(line[i..j])) && NoCrlf(Trimmed(line[i..j]))
    ensures c !in line[i..j] ==> c !in Trimmed(line[i..j])
  {
    var part := line[i..j];
    var k, m := TrimmedIsSlice(part);
    NoCrlfSlice(line, i, j);
    NoCrlfSlice(part, k, m);
  }

  lemma ParsedHeaderGood(line: string)
    requires NoCrlf(line) && ParseHeaderLine(line).Some?
    ensures GoodHeader(ParseHeaderLine(line).value)
  {
    var colon := FindChar(line, ':', 0).value;
    assert line[0..colon] == line[..colon] && line[colon + 1..|line|] == line[colon + 1..];
    TrimmedPart(line, 0, colon, ':');
    TrimmedPart(line, colon + 1, |line|, ':');
  }

  /** The header parser undoes the header printer. */
  lemma ParsePrintHeader(h: Header)
    requires GoodHeader(h)
    ensures ParseHeaderLine(PrintHeader(h)) == Some(h)
    ensures NoCrlf(PrintHeader(h)) && PrintHeader(h) != ""
  {
    var line := PrintHeader(h);
    assert line == h.name + [':'] + (" " + h.value);
    FindCharAt(h.name, ':', " " + h.value, 0);
    assert line[..|h.name|] == h.name;
    assert line[|h.name| + 1..] == " " + h.value;
    assert h.name == "" + h.name + "" && " " + h.value == " " + h.value + "";
    TrimmedUnique("", h.name, "");
    TrimmedUnique(" ", h.value, "");
    NoCrlfJoin(h.name, ": ", h.value);
  }

  // ---------------------------------------------------------------------------------
  // Start lines
  // ---------------------------------------------------------------------------------

  /** The two kinds of first line. The constructor says which parser is meant. */
  datatype Start =
    | RequestLine(verb: string, target: string, version: string)
    | StatusLine(status: int, reason: string)

  /** `start` is what the parser's fields hold afterwards, also when the line is refused. */
  datatype StartResult = StartResult(ok: bool, start: Start)

  predicate KnownVersion(v: string) {
    v == "HTTP/1.1" || v == "HTTP/1.0"
  }

  function ParseRequestLine(old_: Start, line: string): StartResult {
    match FindChar(line, ' ', 0)
    case None => StartResult(false, old_)
    case Some(sp1) =>
      match FindChar(line, ' ', sp1 + 1)
      case None => StartResult(false, old_)
      case Some(sp2) =>
        var start := RequestLine(line[..sp1], line[sp1 + 1..sp2], line[sp2 + 1..]);
        StartResult(start.verb != "" && start.target != "" && KnownVersion(start.version), start)
  }

  datatype StatusParts = StatusParts(version: string, number: string, reason: string)

  /** A status line cut at its first two spaces; the second one and the reason may be missing. */
  function CutStatus(line: string): Option<StatusParts> {
    match FindChar(line, ' ', 0)
    case None => None
    case Some(sp1) =>
      match FindChar(line, ' ', sp1 + 1)
      case None => Some(StatusParts(line[..sp1], line[sp1 + 1..], ""))
      case Some(sp2) => Some(StatusParts(line[..sp1], line[sp1 + 1..sp2], line[sp2 + 1..]))
  }

  function ParseStatusLine(old_: Start, line: string): StartResult {
    match CutStatus(line)
    case None => StartResult(false, old_)
    case Some(parts) =>
      if !KnownVersion(parts.version) then StartResult(false, old_)
      else match Strtol(parts.number)
        case NoNumber => StartResult(false, old_)
        case Number(v) => StartResult(true, StatusLine(ToInt32(v), parts.reason))
  }

  function ParseStart(old_: Start, line: string): (r: StartResult)
    ensures r.start.RequestLine? == old_.RequestLine?
  {
    if old_.RequestLine? then ParseRequestLine(old_, line) else ParseStatusLine(old_, line)
  }

  function PrintStart(start: Start): string {
    match start
    case RequestLine(verb, target, version) => verb + " " + target + " " + version
    case StatusLine(status, reason) => "HTTP/1.1 " + SignedDecimal(status) + " " + reason
  }

  predicate IsInt32(i: int) {
    -0x8000_0000 <= i < 0x8000_0000
  }

  /** What an accepted start line always satisfies, and what printing needs. */
  ghost predicate GoodStart(start: Start) {
    match start
    case RequestLine(verb, target, version) =>
      && verb != "" && ' ' !in verb && NoCrlf(verb)
      && target != "" && ' ' !in target && NoCrlf(target)
      && KnownVersion(version)
    case StatusLine(status, reason) => IsInt32(status) && NoCrlf(reason)
  }

  lemma ParsedRequestLineGood(old_: Start, line: string)
    requires NoCrlf(line) && ParseRequestLine(old_, line).ok
    ensures GoodStart(ParseRequestLine(old_, line).start)
  {
    var sp1 := FindChar(line, ' ', 0).value;
    var sp2 := FindChar(line, ' ', sp1 + 1).value;
    assert line[0..sp1] == line[..sp1];
    NoCrlfSlice(line, 0, sp1);
    NoCrlfSlice(line, sp1 + 1, sp2);
  }

  lemma ParsedStatusLineGood(old_: Start, line: string)
    requires NoCrlf(line) && ParseStatusLine(old_, line).ok
    ensures GoodStart(ParseStatusLine(old_, line).start)
  {
    var sp1 := FindChar(line, ' ', 0).value;
    match FindChar(line, ' ', sp1 + 1) {
      case Some(sp2) =>
        assert line[sp2 + 1..|line|] == line[sp2 + 1..];
        NoCrlfSlice(line, sp2 + 1, |line|);
      case None =>
    }
  }

  lemma ParsedStartGood(old_: Start, line: string)
    requires NoCrlf(line) && ParseStart(old_, line).ok
    ensures GoodStart(ParseStart(old_, line).start)
  {
    if old_.RequestLine? {
      ParsedRequestLineGood(old_, line);
    } else {
      ParsedStatusLineGood(old_, line);
    }
  }

  /** The start line parsers undo the start line printers. */
  lemma ParsePrintStart(old_: Start, start: Start)
    requires GoodStart(start) && old_.RequestLine? == start.RequestLine?
    ensures ParseStart(old_, PrintStart(start)) == StartResult(true, start)
    ensures NoCrlf(PrintStart(start))
  {
    match start
    case RequestLine(verb, target, version) => PrintedRequestLine(verb, target, version);
    case StatusLine(status, reason) => PrintedStatusLine(status, reason);
  }

  lemma SpaceFrom(head: string, i: nat, tail: string, line: string)
    requires i <= |head| && ' ' !in head[i..] && line == head + " " + tail
    ensures FindChar(line, ' ', i) == Some(|head|)
    ensures line[i..|head|] == head[i..] && line[|head| + 1..] == tail
  {
    forall k | i <= k < |head|
      ensures head[k] != ' '
    {
      assert head[i..][k - i] == head[k];
    }
    FindCharAt(head, ' ', tail, i);
  }

  /** A line of three parts is cut at the first two spaces. */
  lemma TwoSpaces(a: string, b: string, c: string, head: string, line: string)
    requires ' ' !in a && ' ' !in b && head == a + " " + b && line == head + " " + c
    ensures FindChar(line, ' ', 0) == Some(|a|) && FindChar(line, ' ', |a| + 1) == Some(|head|)
    ensures line[..|a|] == a && line[|a| + 1..|head|] == b && line[|head| + 1..] == c
  {
    assert FindChar(line, ' ', 0) == Some(|a|) && line[..|a|] == a by {
      assert a[0..] == a && line == a + " " + (b + " " + c);
      SpaceFrom(a, 0, b + " " + c, line);
    }
    assert head[|a| + 1..] == b;
    SpaceFrom(head, |a| + 1, c, line);
  }

  lemma PrintedRequestLine(verb: string, target: string, version: string)
    requires GoodStart(RequestLine(verb, target, version))
    ensures forall old_: Start ::
      ParseRequestLine(old_, verb + " " + target + " " + version)
        == StartResult(true, RequestLine(verb, target, version))
    ensures NoCrlf(verb + " " + target + " " + version)
  {
    var head := verb + " " + target;
    TwoSpaces(verb, target, version, head, head + " " + version);
    NoCrlfJoin(verb, " ", target);
    NoCrlfJoin(verb + " " + target, " ", version);
  }

  lemma PrintedStatusLine(status: int, reason: string)
    requires GoodStart(StatusLine(status, reason))
    ensures forall old_: Start ::
      ParseStatusLine(old_, "HTTP/1.1 " + SignedDecimal(status) + " " + reason)
        == StartResult(true, StatusLine(status, reason))
    ensures NoCrlf("HTTP/1.1 " + SignedDecimal(status) + " " + reason)
  {
    var d := SignedDecimal(status);
    SignedDecimalChars(status);
    StrtolOfDecimal(status);
    forall k: nat
      ensures !CrlfAt(d, k)
    {
      assert k < |d| ==> d[k] in d;
    }
    var head := "HTTP/1.1" + " " + d;
    assert "HTTP/1.1 " + d == head;
    TwoSpaces("HTTP/1.1", d, reason, head, head + " " + reason);
    NoCrlfJoin("HTTP/1.1", " ", d);
    NoCrlfJoin(head, " ", reason);
    assert ToInt32(status) == status;
  }
}
