/** The lines of a message, described without a parser: what header lines, request lines, status
    lines and numbers look like, and a grammar of whole messages that names no line parser. */
module LineShapes {
  import opened Text
  import opened Seqs
  import opened Messages
  import opened Spelling
  import opened MessageParser
  import opened Grammar

  // ---------------------------------------------------------------------------------
  // Header lines
  // ---------------------------------------------------------------------------------

  /** White space, the name, white space, a colon, white space, the value, white space. */
  ghost predicate HeaderCut(line: string, h: Header, a: string, b: string, c: string, d: string) {
    && AllSpace(a) && AllSpace(b) && AllSpace(c) && AllSpace(d)
    && line == a + h.name + b + ":" + (c + h.value + d)
  }

  ghost predicate HeaderShape(line: string, h: Header) {
    GoodHeader(h) && exists a, b, c, d :: HeaderCut(line, h, a, b, c, d)
  }

  lemma CutParses(line: string, h: Header, a: string, b: string, c: string, d: string)
    requires GoodHeader(h) && HeaderCut(line, h, a, b, c, d)
    ensures ParseHeaderLine(line) == Some(h)
  {
    var left, right := a + h.name + b, c + h.value + d;
    forall k | 0 <= k < |left|
      ensures left[k] != ':'
    {
      if k < |a| {
        assert left[k] in a;
      } else if k < |a| + |h.name| {
        assert left[k] in h.name;
      } else {
        assert left[k] in b;
      }
    }
    FindCharAt(left, ':', right, 0);
    assert line[..|left|] == left && line[|left| + 1..] == right;
    TrimmedUnique(a, h.name, b);
    TrimmedUnique(c, h.value, d);
  }

  lemma AroundTrimmed(s: string) returns (a: string, b: string)
    ensures AllSpace(a) && AllSpace(b) && s == a + Trimmed(s) + b
  {
    var i, j := TrimmedIsSlice(s);
    a, b := s[..i], s[j..];
  }

  lemma ParsedIsCut(line: string, h: Header)
    requires NoCrlf(line) && ParseHeaderLine(line) == Some(h)
    ensures HeaderShape(line, h)
  {
    ParsedHeaderGood(line);
    var colon := FindChar(line, ':', 0).value;
    var a, b := AroundTrimmed(line[..colon]);
    var c, d := AroundTrimmed(line[colon + 1..]);
    assert line == line[..colon] + ":" + line[colon + 1..];
    assert HeaderCut(line, h, a, b, c, d);
  }

  /** A header line is accepted, and yields `h`, exactly when it has that shape. */
  lemma HeaderLineExactly(line: string, h: Header)
    requires NoCrlf(line)
    ensures ParseHeaderLine(line) == Some(h) <==> HeaderShape(line, h)
  {
    if ParseHeaderLine(line) == Some(h) {
      ParsedIsCut(line, h);
    }
    if HeaderShape(line, h) {
      var a, b, c, d :| HeaderCut(line, h, a, b, c, d);
      CutParses(line, h, a, b, c, d);
    }
  }

  // ---------------------------------------------------------------------------------
  // Numbers
  // ---------------------------------------------------------------------------------

  /** The number that a row of digits writes down. */
  function Value(digits: string): nat
    requires AllDigits(digits)
  {
    if digits == "" then 0
    else
      assert digits[|digits| - 1] in digits;
      10 * Value(digits[..|digits| - 1]) + (digits[|digits| - 1] as int - '0' as int)
  }

  ghost predicate NumberCut(s: string, v: int, ws: string, sign: string, digits: string, rest: string) {
    && s == ws + (sign + (digits + rest))
    && AllSpace(ws) && (sign == "" || sign == "+" || sign == "-")
    && digits != "" && AllDigits(digits) && (rest != "" ==> !IsDigit(rest[0]))
    && Saturates(if sign == "-" then -(Value(digits) as int) else Value(digits), v)
  }

  /** `v` is `n`, or the end of the 64-bit range beyond which `n` lies. */
  predicate Saturates(n: int, v: int) {
    if n > 9223372036854775807 then v == 9223372036854775807
    else if n < -9223372036854775808 then v == -9223372036854775808
    else v == n
  }

  /** `status` is the 32-bit number with the low 32 bits of `v`. */
  predicate Truncates(v: int, status: int) {
    -2147483648 <= status <= 2147483647 && (v - status) % 4294967296 == 0
  }

  lemma ToInt32Exactly(v: int, status: int)
    ensures ToInt32(v) == status <==> Truncates(v, status)
  {
  }

  /** White space, at most one sign, all digits that follow, and anything else. */
  ghost predicate NumberShape(s: string, v: int) {
    exists ws, sign, digits, rest :: NumberCut(s, v, ws, sign, digits, rest)
  }

  lemma {:induction false} DigitsValueIsValue(digits: string)
    requires AllDigits(digits)
    ensures DigitsValue(digits, 0) == Value(digits)
  {
    if digits != "" {
      var front, last := digits[..|digits| - 1], digits[|digits| - 1];
      assert digits == front + [last] && last in digits;
      DigitsValueIsValue(front);
      DigitsValueSplit(front, [last], 0);
      assert [last][1..] == "";
    }
  }

  lemma {:induction false} DigitPrefix(s: string) returns (k: nat)
    ensures k <= |s| && AllDigits(s[..k]) && (k < |s| ==> !IsDigit(s[k]))
    ensures s != "" && IsDigit(s[0]) ==> k > 0
  {
    k := 0;
    if s != "" && IsDigit(s[0]) {
      var more := DigitPrefix(s[1..]);
      k := more + 1;
      assert s[..k] == [s[0]] + s[1..][..more];
    }
  }

  lemma LeadingValue(digits: string, rest: string)
    requires AllDigits(digits) && (rest != "" ==> !IsDigit(rest[0]))
    ensures DigitsValue(digits + rest, 0) == Value(digits)
  {
    DigitsValueSplit(digits, rest, 0);
    DigitsValueIsValue(digits);
  }

  lemma CutIsNumber(s: string, v: int, ws: string, sign: string, digits: string, rest: string)
    requires NumberCut(s, v, ws, sign, digits, rest)
    ensures Strtol(s) == Number(v)
  {
    var t := sign + (digits + rest);
    TrimStartSkips(ws, t);
    assert digits[0] in digits;
    assert TrimStart(t) == t;
    assert t[0] == if sign == "" then digits[0] else sign[0];
    assert (if sign == "" then t else t[1..]) == digits + rest;
    LeadingValue(digits, rest);
  }

  /** What `strtol` sees after white space and sign. */
  lemma NumberBody(s: string) returns (ws: string, sign: string, body: string)
    requires Strtol(s).Number?
    ensures s == ws + (sign + body) && AllSpace(ws) && (sign == "" || sign == "+" || sign == "-")
    ensures body != "" && IsDigit(body[0])
    ensures var n: int := DigitsValue(body, 0); Strtol(s) == Number(Clamp(if sign == "-" then -n else n))
  {
    var k := TrimStartResult(s);
    var t := s[k..];
    ws := s[..k];
    if t[0] == '-' || t[0] == '+' {
      sign, body := [t[0]], t[1..];
      assert t == sign + body;
    } else {
      sign, body := "", t;
      assert sign + body == t;
    }
    assert s == ws + t;
  }

  lemma NumberIsCut(s: string)
    requires Strtol(s).Number?
    ensures NumberShape(s, Strtol(s).value)
  {
    var ws, sign, body := NumberBody(s);
    var m := DigitPrefix(body);
    assert body == body[..m] + body[m..];
    LeadingValue(body[..m], body[m..]);
    assert NumberCut(s, Strtol(s).value, ws, sign, body[..m], body[m..]);
  }

  /** `strtol` finds a number exactly in the texts of that shape. */
  lemma StrtolExactly(s: string, v: int)
    ensures Strtol(s) == Number(v) <==> NumberShape(s, v)
  {
    if Strtol(s) == Number(v) {
      NumberIsCut(s);
    }
    if NumberShape(s, v) {
      var ws, sign, digits, rest :| NumberCut(s, v, ws, sign, digits, rest);
      CutIsNumber(s, v, ws, sign, digits, rest);
    }
  }

  // ---------------------------------------------------------------------------------
  // Start lines
  // ---------------------------------------------------------------------------------

  /** Version, one space, a number without space, and nothing or a space and the reason. */
  ghost predicate StatusCut(line: string, start: Start, version: string, number: string, v: int, tail: string)
    requires start.StatusLine?
  {
    && (version == "HTTP/1.1" || version == "HTTP/1.0") && ' ' !in number
    && line == version + " " + (number + tail)
    && tail == (if tail == "" then "" else " " + start.reason) && (tail == "" ==> start.reason == "")
    && NumberShape(number, v) && Truncates(v, start.status)
  }

  ghost predicate StartShape(line: string, start: Start) {
    match start
    case RequestLine(verb, target, version) =>
      && line == verb + " " + target + " " + version
      && verb != "" && ' ' !in verb && target != "" && ' ' !in target
      && (version == "HTTP/1.1" || version == "HTTP/1.0")
    case StatusLine(_, _) =>
      exists version, number, v, tail :: StatusCut(line, start, version, number, v, tail)
  }

  lemma RequestLineExactly(old_: Start, line: string, start: Start)
    requires NoCrlf(line) && start.RequestLine?
    ensures ParseRequestLine(old_, line) == StartResult(true, start) <==> StartShape(line, start)
  {
    if ParseRequestLine(old_, line) == StartResult(true, start) {
      ParsedRequestLineGood(old_, line);
      var sp1 := FindChar(line, ' ', 0).value;
      var sp2 := FindChar(line, ' ', sp1 + 1).value;
      assert line == line[..sp1] + " " + line[sp1 + 1..sp2] + " " + line[sp2 + 1..];
    }
    if StartShape(line, start) {
      assert start.verb == line[..|start.verb|];
      assert start.target == line[|start.verb| + 1..|start.verb| + 1 + |start.target|];
      NoCrlfSlice(line, 0, |start.verb|);
      NoCrlfSlice(line, |start.verb| + 1, |start.verb| + 1 + |start.target|);
      PrintedRequestLine(start.verb, start.target, start.version);
    }
  }

  lemma Slices(line: string, a: string, b: string, c: string)
    requires line == a + " " + (b + c)
    ensures |line| == |a| + 1 + |b| + |c|
    ensures line[..|a|] == a && line[|a| + 1..|a| + 1 + |b|] == b && line[|a| + 1 + |b|..] == c
  {
    var bc := b + c;
    assert line[|a| + 1..] == bc;
    assert bc[..|b|] == b && bc[|b|..] == c;
    assert line[|a| + 1..|a| + 1 + |b|] == bc[..|b|];
    assert line[|a| + 1 + |b|..] == bc[|b|..];
  }

  lemma SpacesBefore(line: string, version: string, number: string, reason: string)
    requires line == version + " " + (number + (" " + reason)) && ' ' !in number
    ensures FindChar(line, ' ', |version| + 1) == Some(|version| + 1 + |number|)
  {
    var head := version + " " + number;
    Assoc(version + " ", number, " " + reason);
    Assoc(head, " ", reason);
    assert line == head + " " + reason;
    assert head[|version| + 1..] == number;
    SpaceFrom(head, |version| + 1, reason, line);
  }

  lemma FirstSpace(line: string, version: string, rest: string)
    requires line == version + " " + rest && ' ' !in version
    ensures FindChar(line, ' ', 0) == Some(|version|)
  {
    assert version[0..] == version;
    SpaceFrom(version, 0, rest, line);
  }

  /** The second space of the line, if any, ends the number. */
  lemma NumberEnds(line: string, version: string, number: string, reason: string, tail: string)
    requires line == version + " " + (number + tail) && ' ' !in number
    requires tail == "" || tail == " " + reason
    ensures FindChar(line, ' ', |version| + 1) == if tail == "" then None else Some(|version| + 1 + |number|)
  {
    if tail == "" {
      Slices(line, version, number, tail);
      assert number + tail == number;
    } else {
      SpacesBefore(line, version, number, reason);
    }
  }

  /** A line of that shape is cut into its parts. */
  lemma StatusCuts(line: string, version: string, number: string, reason: string, tail: string)
    requires ' ' !in version && ' ' !in number && line == version + " " + (number + tail)
    requires tail == (if tail == "" then "" else " " + reason) && (tail == "" ==> reason == "")
    ensures CutStatus(line) == Some(StatusParts(version, number, reason))
  {
    FirstSpace(line, version, number + tail);
    NumberEnds(line, version, number, reason, tail);
    Slices(line, version, number, tail);
    if tail == "" {
      assert line[|version| + 1..] == number;
    } else {
      assert line[|version| + 1 + |number| + 1..] == tail[1..] == reason;
    }
  }

  lemma SpaceAt(line: string, i: nat)
    requires i < |line| && line[i] == ' '
    ensures line == line[..i] + " " + line[i + 1..]
  {
  }

  lemma SliceOfSlice(s: string, i: nat, k: nat)
    requires i + k < |s|
    ensures s[i..][..k] == s[i..i + k] && s[i..][k + 1..] == s[i + k + 1..]
    ensures s[i..][k] == s[i + k]
  {
  }

  lemma NoSpaceIn(line: string, i: nat, j: nat)
    requires i <= j <= |line| && forall k :: i <= k < j ==> line[k] != ' '
    ensures ' ' !in line[i..j]
  {
  }

  lemma CutOnce(line: string, sp1: nat)
    requires sp1 < |line| && line[sp1] == ' '
    ensures line == line[..sp1] + " " + (line[sp1 + 1..] + "")
  {
    SpaceAt(line, sp1);
    assert line[sp1 + 1..] + "" == line[sp1 + 1..];
  }

  lemma CutTwice(line: string, sp1: nat, sp2: nat)
    requires sp1 < sp2 < |line| && line[sp1] == ' ' && line[sp2] == ' '
    ensures line == line[..sp1] + " " + (line[sp1 + 1..sp2] + (" " + line[sp2 + 1..]))
  {
    SpaceAt(line, sp1);
    var i, k := sp1 + 1, sp2 - sp1 - 1;
    SliceOfSlice(line, i, k);
    SpaceAt(line[i..], k);
    Assoc(line[sp1 + 1..sp2], " ", line[sp2 + 1..]);
  }

  /** A line that is cut into parts has that shape. */
  lemma CutHasShape(line: string, parts: StatusParts) returns (tail: string)
    requires CutStatus(line) == Some(parts)
    ensures ' ' !in parts.number && line == parts.version + " " + (parts.number + tail)
    ensures tail == (if tail == "" then "" else " " + parts.reason) && (tail == "" ==> parts.reason == "")
  {
    var sp1 := FindChar(line, ' ', 0).value;
    match FindChar(line, ' ', sp1 + 1)
    case None =>
      tail := "";
      CutOnce(line, sp1);
      NoSpaceIn(line, sp1 + 1, |line|);
      assert line[sp1 + 1..|line|] == line[sp1 + 1..];
    case Some(sp2) =>
      tail := " " + parts.reason;
      CutTwice(line, sp1, sp2);
      NoSpaceIn(line, sp1 + 1, sp2);
  }

  lemma ParsedStatus(old_: Start, line: string)
    requires ParseStatusLine(old_, line).ok
    ensures StartShape(line, ParseStatusLine(old_, line).start)
  {
    var parts := CutStatus(line).value;
    var tail := CutHasShape(line, parts);
    var v := Strtol(parts.number).value;
    NumberIsCut(parts.number);
    ToInt32Exactly(v, ToInt32(v));
    assert StatusCut(line, StatusLine(ToInt32(v), parts.reason), parts.version, parts.number, v, tail);
  }

  lemma StatusLineExactly(old_: Start, line: string, start: Start)
    requires start.StatusLine?
    ensures ParseStatusLine(old_, line) == StartResult(true, start) <==> StartShape(line, start)
  {
    if ParseStatusLine(old_, line) == StartResult(true, start) {
      ParsedStatus(old_, line);
    }
    if StartShape(line, start) {
      var version, number, v, tail :| StatusCut(line, start, version, number, v, tail);
      StatusCuts(line, version, number, start.reason, tail);
      StrtolExactly(number, v);
      ToInt32Exactly(v, start.status);
    }
  }

  /** A start line is accepted, and yields `start`, exactly when it has that shape. */
  lemma StartLineExactly(old_: Start, line: string, start: Start)
    requires NoCrlf(line) && start.RequestLine? == old_.RequestLine?
    ensures ParseStart(old_, line) == StartResult(true, start) <==> StartShape(line, start)
  {
    if start.RequestLine? {
      RequestLineExactly(old_, line, start);
    } else {
      StatusLineExactly(old_, line, start);
    }
  }

  // ---------------------------------------------------------------------------------
  // The announced length
  // ---------------------------------------------------------------------------------

  /** The first Content-Length value is a number of bytes; a negative number, a text that is
      no number and a missing header all announce an empty body. */
  ghost predicate Announces(headers: seq<Header>, n: nat) {
    if Missing(headers, "Content-Length") then n == 0
    else exists i: nat :: First(headers, "Content-Length", i) && AnnouncedBy(headers[i].value, n)
  }

  ghost predicate AnnouncedBy(value: string, n: nat) {
    if exists v :: NumberShape(value, v) then exists v :: NumberShape(value, v) && n == (if v < 0 then 0 else v)
    else n == 0
  }

  lemma AnnouncedByExactly(value: string, n: nat)
    ensures AnnouncedBy(value, n)
      <==> n == if Strtol(value).Number? && Strtol(value).value > 0 then Strtol(value).value else 0
  {
    forall v
      ensures Strtol(value) == Number(v) <==> NumberShape(value, v)
    {
      StrtolExactly(value, v);
    }
    if Strtol(value).Number? {
      assert NumberShape(value, Strtol(value).value);
    }
  }

  lemma LengthExactly(headers: seq<Header>, n: nat)
    ensures ContentLength(headers) == n <==> Announces(headers, n)
  {
    var i := FirstOrMissing(headers, "Content-Length");
    if !Missing(headers, "Content-Length") {
      AnnouncedByExactly(headers[i].value, n);
      forall j: nat | First(headers, "Content-Length", j)
        ensures j == i
      {
        FirstIsUnique(headers, "Content-Length", i, j);
      }
    }
  }

  // ---------------------------------------------------------------------------------
  // Messages
  // ---------------------------------------------------------------------------------

  /** The stream is a start line, header lines, an empty line, a body of the announced length
      and a rest, and these stand for `start` and `headers`. */
  ghost predicate Spells(stream: string, f: Frame, start: Start, headers: seq<Header>) {
    && stream == Stream(f)
    && NoCrlf(f.startLine) && StartShape(f.startLine, start)
    && |headers| == |f.headerLines|
    && (forall i :: 0 <= i < |headers| ==> NoCrlf(f.headerLines[i]) && HeaderShape(f.headerLines[i], headers[i]))
    && Announces(headers, |f.body|)
  }

  predicate SpeaksOld(start: Start) {
    start.RequestLine? && start.version == "HTTP/1.0"
  }

  /** What a completed parser holds for it. */
  ghost function MessageOf(f: Frame, start: Start, headers: seq<Header>): Parser {
    Parser(Complete, f.rest, |f.body|, start, headers, f.body, !WantsClose(headers, SpeaksOld(start)))
  }

  lemma SpelledLines(lines: seq<string>, headers: seq<Header>)
    requires |headers| == |lines|
    requires forall i :: 0 <= i < |headers| ==> NoCrlf(lines[i]) && HeaderShape(lines[i], headers[i])
    ensures GoodLines(lines) && HeadersOf(lines) == headers
  {
    forall i | 0 <= i < |headers|
      ensures GoodLine(lines[i]) && ParseHeaderLine(lines[i]) == Some(headers[i])
    {
      HeaderLineExactly(lines[i], headers[i]);
    }
  }

  lemma SpelledIsAccepted(init: Start, stream: string, f: Frame, start: Start, headers: seq<Header>)
    requires Spells(stream, f, start, headers) && start.RequestLine? == init.RequestLine?
    ensures Accepts(init, f, stream) && Parsed(init, f) == MessageOf(f, start, headers)
  {
    StartLineExactly(init, f.startLine, start);
    SpelledLines(f.headerLines, headers);
    LengthExactly(headers, |f.body|);
    assert start.RequestLine? ==> KnownVersion(start.version);
    WishExactly(start, headers);
  }

  /** An accepted start line names one of two versions; responses count as HTTP/1.1. */
  lemma WishExactly(start: Start, headers: seq<Header>)
    requires start.RequestLine? ==> KnownVersion(start.version)
    ensures KeepAlive(headers, Version(start)) == !WantsClose(headers, SpeaksOld(start))
  {
    KeepAliveExactly(headers, Version(start));
  }

  lemma AcceptedIsSpelled(init: Start, stream: string, f: Frame)
    requires Accepts(init, f, stream)
    ensures Spells(stream, f, Parsed(init, f).start, Parsed(init, f).headers)
    ensures Parsed(init, f) == MessageOf(f, Parsed(init, f).start, Parsed(init, f).headers)
  {
    var p := Parsed(init, f);
    LengthExactly(p.headers, |f.body|);
    WishExactly(p.start, p.headers);
    StartLineExactly(init, f.startLine, p.start);
    forall i | 0 <= i < |p.headers|
      ensures NoCrlf(f.headerLines[i]) && HeaderShape(f.headerLines[i], p.headers[i])
    {
      assert GoodLine(f.headerLines[i]);
      HeaderLineExactly(f.headerLines[i], p.headers[i]);
    }
  }

  /** The parser against the grammar, with no line parser in the grammar: it completes a
      stream and holds `p` exactly when the stream spells the message that `p` holds. */
  lemma CompletesExactly(init: Start, stream: string, p: Parser)
    requires p.phase == Complete && p.start.RequestLine? == init.RequestLine?
    ensures Feed(Fresh(init), stream) == p
      <==> exists f, start, headers :: Spells(stream, f, start, headers) && p == MessageOf(f, start, headers)
  {
    if Feed(Fresh(init), stream) == p {
      var f := CompleteRevealsFrame(init, stream);
      GrammarParses(init, f, stream);
      AcceptedIsSpelled(init, stream, f);
      assert p == MessageOf(f, p.start, p.headers);
    }
    forall f, start, headers | Spells(stream, f, start, headers) && p == MessageOf(f, start, headers)
      ensures Feed(Fresh(init), stream) == p
    {
      SpelledIsAccepted(init, stream, f, start, headers);
      GrammarParses(init, f, stream);
    }
  }

  /** After lines of the right shape comes one that has not the shape it needs. */
  ghost predicate Misspells(init: Start, stream: string, b: BadFrame) {
    && stream == BadStream(b) && NoCrlf(b.line)
    && match b
       case BadStart(line, _) => !IsStartLine(init, line)
       case BadHeader(startLine, headerLines, line, _) =>
         && IsStartLine(init, startLine)
         && (forall i :: 0 <= i < |headerLines| ==> IsHeaderLine(headerLines[i]))
         && line != "" && !IsHeaderLine(line)
  }

  ghost predicate IsHeaderLine(line: string) {
    NoCrlf(line) && exists h :: HeaderShape(line, h)
  }

  ghost predicate IsStartLine(init: Start, line: string) {
    NoCrlf(line) && exists start: Start :: start.RequestLine? == init.RequestLine? && StartShape(line, start)
  }

  lemma GoodLineExactly(line: string)
    ensures GoodLine(line) <==> IsHeaderLine(line)
  {
    if GoodLine(line) {
      HeaderLineExactly(line, ParseHeaderLine(line).value);
    }
    if IsHeaderLine(line) {
      var h :| HeaderShape(line, h);
      HeaderLineExactly(line, h);
    }
  }

  lemma StartAccepted(init: Start, line: string)
    ensures NoCrlf(line) && ParseStart(init, line).ok <==> IsStartLine(init, line)
  {
    if NoCrlf(line) && ParseStart(init, line).ok {
      StartLineExactly(init, line, ParseStart(init, line).start);
    }
    if IsStartLine(init, line) {
      var start: Start :| start.RequestLine? == init.RequestLine? && StartShape(line, start);
      StartLineExactly(init, line, start);
    }
  }

  lemma RefusedIsMisspelled(init: Start, stream: string, b: BadFrame)
    ensures Refuses(init, b, stream) <==> Misspells(init, stream, b)
  {
    match b
    case BadStart(line, _) =>
      StartAccepted(init, line);
    case BadHeader(startLine, headerLines, line, _) =>
      StartAccepted(init, startLine);
      GoodLineExactly(line);
      forall i | 0 <= i < |headerLines|
        ensures GoodLine(headerLines[i]) <==> IsHeaderLine(headerLines[i])
      {
        GoodLineExactly(headerLines[i]);
      }
      assert GoodLines(headerLines) <==> forall i :: 0 <= i < |headerLines| ==> IsHeaderLine(headerLines[i]);
  }

  /** It fails a stream exactly when the stream is misspelt. */
  lemma FailsExactly(init: Start, stream: string)
    ensures Feed(Fresh(init), stream).phase == Error <==> exists b :: Misspells(init, stream, b)
  {
    ParserDecidesGrammar(init, stream);
    forall b
      ensures Refuses(init, b, stream) <==> Misspells(init, stream, b)
    {
      RefusedIsMisspelled(init, stream, b);
    }
  }
}
