/** A reference grammar for the byte streams, independent of the incremental parser, and the
    proof that the parser accepts, refuses and waits exactly as the grammar says. */
module Grammar {
  import opened Text
  import opened Messages
  import opened MessageParser

  /** A stream cut into its parts: the raw lines, the body, and what follows the message. */
  datatype Frame = Frame(startLine: string, headerLines: seq<string>, body: string, rest: string)

  /** A stream whose first unacceptable line is its start line or its next header line. */
  datatype BadFrame =
    | BadStart(line: string, rest: string)
    | BadHeader(startLine: string, headerLines: seq<string>, line: string, rest: string)

  function Lines(lines: seq<string>): string {
    if lines == [] then "" else lines[0] + CRLF + Lines(lines[1..])
  }

  function Stream(f: Frame): string {
    f.startLine + CRLF + (Lines(f.headerLines) + (CRLF + (f.body + f.rest)))
  }

  function BadStream(b: BadFrame): string {
    match b
    case BadStart(line, rest) => line + CRLF + rest
    case BadHeader(startLine, headerLines, line, rest) =>
      startLine + CRLF + (Lines(headerLines) + (line + CRLF + rest))
  }

  ghost predicate GoodLine(line: string) {
    line != "" && NoCrlf(line) && ParseHeaderLine(line).Some?
  }

  ghost predicate GoodLines(lines: seq<string>) {
    forall i :: 0 <= i < |lines| ==> GoodLine(lines[i])
  }

  ghost function HeadersOf(lines: seq<string>): seq<Header>
    requires GoodLines(lines)
  {
    seq(|lines|, i requires 0 <= i < |lines| =>
      assert GoodLine(lines[i]);
      ParseHeaderLine(lines[i]).value)
  }

  /** A valid start line, valid header lines in order, an empty line, exactly the announced
      number of body bytes, and anything after that. */
  ghost predicate Accepts(init: Start, f: Frame, stream: string) {
    && NoCrlf(f.startLine) && ParseStart(init, f.startLine).ok
    && GoodLines(f.headerLines)
    && |f.body| == ContentLength(HeadersOf(f.headerLines))
    && stream == Stream(f)
  }

  ghost predicate Refuses(init: Start, b: BadFrame, stream: string) {
    && stream == BadStream(b)
    && NoCrlf(b.line)
    && match b
       case BadStart(line, _) => !ParseStart(init, line).ok
       case BadHeader(startLine, headerLines, line, _) =>
         && NoCrlf(startLine) && ParseStart(init, startLine).ok && GoodLines(headerLines)
         && line != "" && ParseHeaderLine(line).None?
  }

  /** The message a frame stands for. */
  ghost function Parsed(init: Start, f: Frame): Parser
    requires GoodLines(f.headerLines)
  {
    var start := ParseStart(init, f.startLine).start;
    var headers := HeadersOf(f.headerLines);
    Parser(Complete, f.rest, |f.body|, start, headers, f.body, KeepAlive(headers, Version(start)))
  }

  function Fresh(init: Start): Parser {
    Parser(StartLine, "", 0, init, [], "", true)
  }

  // ---------------------------------------------------------------------------------
  // The grammar drives the parser
  // ---------------------------------------------------------------------------------

  /** One terminated line at the front of the buffer is what the next transition sees. */
  lemma FrontLine(line: string, rest: string)
    requires NoCrlf(line)
    ensures var s := line + CRLF + rest;
      FindCrlf(s) == Some(|line|) && s[..|line|] == line && s[|line| + 2..] == rest
  {
    FindCrlfAfterLine(line, rest);
  }

  lemma HeadersCons(line: string, more: seq<string>)
    requires GoodLine(line) && GoodLines(more)
    ensures GoodLines([line] + more)
    ensures HeadersOf([line] + more) == [ParseHeaderLine(line).value] + HeadersOf(more)
  {
    var lines := [line] + more;
    forall i | 0 <= i < |lines|
      ensures GoodLine(lines[i])
    {
      assert i > 0 ==> lines[i] == more[i - 1];
    }
  }

  /** One good header line moves from the buffer to the header list. */
  lemma TakeHeaderLine(p: Parser, line: string, rest: string)
    requires p.phase == HeaderLines && GoodLine(line) && p.buffer == line + CRLF + rest
    ensures Run(p) == Run(p.(buffer := rest, headers := p.headers + [ParseHeaderLine(line).value]))
  {
    FrontLine(line, rest);
    assert Step(p) == Some(HeaderStep(p, |line|));
  }

  lemma TakeFirstOf(p: Parser, line: string, more: seq<string>, tail: string, q: Parser)
    requires p.phase == HeaderLines && GoodLine(line) && GoodLines(more)
    requires p.buffer == Lines([line] + more) + tail
    requires q == p.(buffer := Lines(more) + tail, headers := p.headers + [ParseHeaderLine(line).value])
    ensures Run(p) == Run(q) && GoodLines([line] + more)
    ensures q.headers + HeadersOf(more) == p.headers + HeadersOf([line] + more)
  {
    assert Run(p) == Run(q) by {
      TakeHeaderLine(p, line, Lines(more) + tail);
    }
    HeadersCons(line, more);
    AssocHeaders(p.headers, ParseHeaderLine(line).value, HeadersOf(more));
  }

  lemma AssocHeaders(a: seq<Header>, h: Header, b: seq<Header>)
    ensures a + [h] + b == a + ([h] + b)
  {
  }

  lemma {:induction false} RunHeaderLines(p: Parser, lines: seq<string>, tail: string, r: Parser)
    requires p.phase == HeaderLines && GoodLines(lines) && p.buffer == Lines(lines) + tail
    requires r == p.(headers := p.headers + HeadersOf(lines), buffer := tail)
    ensures Run(p) == Run(r)
    decreases |lines|
  {
    if lines == [] {
      assert p == r;
    } else {
      var line, more := lines[0], lines[1..];
      assert lines == [line] + more && GoodLine(line);
      var q := p.(buffer := Lines(more) + tail, headers := p.headers + [ParseHeaderLine(line).value]);
      TakeFirstOf(p, line, more, tail, q);
      RunHeaderLines(q, more, tail, r);
    }
  }

  /** The parser in its header phase, as the grammar describes it. */
  function InHeaders(init: Start, startLine: string, headers: seq<Header>, buffer: string): Parser {
    Parser(HeaderLines, buffer, 0, ParseStart(init, startLine).start, headers, "", true)
  }

  lemma TakeStartLine(init: Start, startLine: string, rest: string)
    requires NoCrlf(startLine) && ParseStart(init, startLine).ok
    ensures Feed(Fresh(init), startLine + CRLF + rest) == Run(InHeaders(init, startLine, [], rest))
  {
    var p := Append(Fresh(init), startLine + CRLF + rest);
    assert p.buffer == startLine + CRLF + rest;
    FrontLine(startLine, rest);
    assert Step(p) == Some(StartStep(p, |startLine|));
  }

  /** The state in which the parser is after a good start line and good header lines. */
  lemma RunUpTo(init: Start, startLine: string, lines: seq<string>, tail: string)
    requires NoCrlf(startLine) && ParseStart(init, startLine).ok && GoodLines(lines)
    ensures Feed(Fresh(init), startLine + CRLF + (Lines(lines) + tail))
         == Run(InHeaders(init, startLine, HeadersOf(lines), tail))
  {
    TakeStartLine(init, startLine, Lines(lines) + tail);
    RunHeaderLines(InHeaders(init, startLine, [], Lines(lines) + tail), lines, tail,
                   InHeaders(init, startLine, HeadersOf(lines), tail));
  }

  /** After the header phase only the body is missing. */
  lemma RunBody(p: Parser, rest: string)
    requires p.phase == HeaderLines && p.buffer == CRLF + rest
    ensures var n := ContentLength(p.headers);
      var q := p.(phase := Body, need := n, keepAlive := KeepAlive(p.headers, Version(p.start)), buffer := rest);
      Run(p) == if n <= |rest| then q.(phase := Complete, body := rest[..n], buffer := rest[n..]) else q
  {
    assert "" + CRLF + rest == p.buffer;
    FrontLine("", rest);
    var q := HeaderStep(p, 0);
    assert Step(p) == Some(q) && q.buffer == rest;
    if Step(q).Some? {
      assert Run(BodyStep(q)) == BodyStep(q);
    }
  }

  /** Completeness: a stream of the grammar is parsed completely, to the message it stands
      for, and the bytes after it stay in the buffer. */
  lemma GrammarParses(init: Start, f: Frame, stream: string)
    requires Accepts(init, f, stream)
    ensures Feed(Fresh(init), stream) == Parsed(init, f)
  {
    var rest := f.body + f.rest;
    RunUpTo(init, f.startLine, f.headerLines, CRLF + rest);
    RunBody(InHeaders(init, f.startLine, HeadersOf(f.headerLines), CRLF + rest), rest);
    assert rest[..|f.body|] == f.body && rest[|f.body|..] == f.rest;
  }

  lemma BadStartRefused(init: Start, line: string, rest: string)
    requires NoCrlf(line) && !ParseStart(init, line).ok
    ensures Feed(Fresh(init), line + CRLF + rest).phase == Error
  {
    FrontLine(line, rest);
    var p := Append(Fresh(init), line + CRLF + rest);
    assert p.buffer == line + CRLF + rest;
    var q := StartStep(p, |line|);
    assert Step(p) == Some(q) && q.phase == Error && Run(q) == q;
  }

  lemma BadHeaderRefused(p: Parser, line: string, rest: string)
    requires p.phase == HeaderLines && p.buffer == line + CRLF + rest
    requires NoCrlf(line) && line != "" && ParseHeaderLine(line).None?
    ensures Run(p).phase == Error
  {
    FrontLine(line, rest);
    var q := HeaderStep(p, |line|);
    assert Step(p) == Some(q) && q.phase == Error && Run(q) == q;
  }

  /** A stream with an offending line is refused. */
  lemma GrammarRefuses(init: Start, b: BadFrame, stream: string)
    requires Refuses(init, b, stream)
    ensures Feed(Fresh(init), stream).phase == Error
  {
    match b
    case BadStart(line, rest) =>
      BadStartRefused(init, line, rest);
    case BadHeader(startLine, lines, line, rest) =>
      RunUpTo(init, startLine, lines, line + CRLF + rest);
      BadHeaderRefused(InHeaders(init, startLine, HeadersOf(lines), line + CRLF + rest), line, rest);
  }

  // ---------------------------------------------------------------------------------
  // The parser reveals the grammar
  // ---------------------------------------------------------------------------------

  /** The line in front of the first line end, and the cut around it. */
  lemma CutFront(s: string) returns (line: string, rest: string)
    requires FindCrlf(s).Some?
    ensures line == s[..FindCrlf(s).value] && rest == s[FindCrlf(s).value + 2..]
    ensures NoCrlf(line) && s == line + CRLF + rest
  {
    var i := FindCrlf(s).value;
    line, rest := s[..i], s[i + 2..];
    forall k: nat
      ensures !CrlfAt(line, k)
    {
      assert k < i ==> !CrlfAt(s, k);
    }
    assert s == s[..i] + s[i..i + 2] + s[i + 2..];
    assert s[i..i + 2] == CRLF;
  }

  /** How the header phase can end, read off a run that ends it: good lines, then a line
      that is empty or refused. */
  lemma {:induction false} HeaderPhaseCut(p: Parser)
    returns (lines: seq<string>, last: string, rest: string)
    requires p.phase == HeaderLines && Run(p).phase in {Complete, Error}
    ensures GoodLines(lines) && NoCrlf(last) && (last == "" || ParseHeaderLine(last).None?)
    ensures p.buffer == Lines(lines) + (last + CRLF + rest)
    decreases |p.buffer|
  {
    assert FindCrlf(p.buffer).Some?;
    var line, after := CutFront(p.buffer);
    if line == "" || ParseHeaderLine(line).None? {
      lines, last, rest := [], line, after;
      assert Lines(lines) + p.buffer == p.buffer;
    } else {
      TakeHeaderLine(p, line, after);
      var more: seq<string>;
      more, last, rest :=
        HeaderPhaseCut(p.(buffer := after, headers := p.headers + [ParseHeaderLine(line).value]));
      lines := [line] + more;
      HeadersCons(line, more);
    }
  }

  /** The start line of a stream whose parse ends. */
  lemma StartCut(init: Start, stream: string) returns (line: string, rest: string)
    requires Feed(Fresh(init), stream).phase in {Complete, Error}
    ensures NoCrlf(line) && stream == line + CRLF + rest
  {
    var p := Append(Fresh(init), stream);
    assert p.buffer == stream;
    assert Step(p).Some?;
    line, rest := CutFront(stream);
  }

  /** The cut up to the line that is empty or refused. */
  lemma HeadCut(init: Start, stream: string, line: string, block: string)
    returns (lines: seq<string>, last: string, rest: string)
    requires NoCrlf(line) && ParseStart(init, line).ok && stream == line + CRLF + block
    requires Feed(Fresh(init), stream).phase in {Complete, Error}
    ensures GoodLines(lines) && NoCrlf(last) && (last == "" || ParseHeaderLine(last).None?)
    ensures block == Lines(lines) + (last + CRLF + rest)
  {
    TakeStartLine(init, line, block);
    lines, last, rest := HeaderPhaseCut(InHeaders(init, line, [], block));
  }

  /** Once the empty line is found, the parse completes exactly when the body has arrived. */
  lemma HeadThenBody(init: Start, line: string, lines: seq<string>, rest: string)
    requires NoCrlf(line) && ParseStart(init, line).ok && GoodLines(lines)
    ensures Feed(Fresh(init), line + CRLF + (Lines(lines) + (CRLF + rest))).phase
         == if ContentLength(HeadersOf(lines)) <= |rest| then Complete else Body
  {
    RunUpTo(init, line, lines, CRLF + rest);
    RunBody(InHeaders(init, line, HeadersOf(lines), CRLF + rest), rest);
  }

  /** Soundness for Complete: a completed parse exhibits a cut of the stream. */
  lemma CompleteRevealsFrame(init: Start, stream: string) returns (f: Frame)
    requires Feed(Fresh(init), stream).phase == Complete
    ensures Accepts(init, f, stream)
  {
    var line, block := StartCut(init, stream);
    if !ParseStart(init, line).ok {
      BadStartRefused(init, line, block);
      assert false;
    }
    var lines, last, rest := HeadCut(init, stream, line, block);
    if last != "" {
      GrammarRefuses(init, BadHeader(line, lines, last, rest), stream);
      assert false;
    }
    assert last + CRLF + rest == CRLF + rest;
    HeadThenBody(init, line, lines, rest);
    var n := ContentLength(HeadersOf(lines));
    f := Frame(line, lines, rest[..n], rest[n..]);
    assert f.body + f.rest == rest;
  }

  /** Soundness for Error: a failed parse exhibits the offending line. */
  lemma ErrorRevealsFrame(init: Start, stream: string) returns (b: BadFrame)
    requires Feed(Fresh(init), stream).phase == Error
    ensures Refuses(init, b, stream)
  {
    var line, block := StartCut(init, stream);
    if !ParseStart(init, line).ok {
      return BadStart(line, block);
    }
    var lines, last, rest := HeadCut(init, stream, line, block);
    if last == "" {
      assert last + CRLF + rest == CRLF + rest;
      HeadThenBody(init, line, lines, rest);
      assert false;
    }
    b := BadHeader(line, lines, last, rest);
  }

  /** The parser decides the grammar: it completes exactly on the streams that start with a
      message, fails exactly on those with an offending line, and otherwise waits. */
  lemma ParserDecidesGrammar(init: Start, stream: string)
    ensures Feed(Fresh(init), stream).phase == Complete <==> exists f :: Accepts(init, f, stream)
    ensures Feed(Fresh(init), stream).phase == Error <==> exists b :: Refuses(init, b, stream)
  {
    if Feed(Fresh(init), stream).phase == Complete {
      var f := CompleteRevealsFrame(init, stream);
    }
    if Feed(Fresh(init), stream).phase == Error {
      var b := ErrorRevealsFrame(init, stream);
    }
    forall f | Accepts(init, f, stream)
      ensures Feed(Fresh(init), stream).phase == Complete
    {
      GrammarParses(init, f, stream);
    }
    forall b | Refuses(init, b, stream)
      ensures Feed(Fresh(init), stream).phase == Error
    {
      GrammarRefuses(init, b, stream);
    }
  }

  // ---------------------------------------------------------------------------------
  // The grammar is unambiguous
  // ---------------------------------------------------------------------------------

  /** The first line and what follows it, for a block that ends with an empty line. */
  lemma FirstOfBlock(lines: seq<string>, s: string) returns (line: string, rest: string)
    requires GoodLines(lines)
    ensures NoCrlf(line) && Lines(lines) + (CRLF + s) == line + CRLF + rest
    ensures lines == [] ==> line == "" && rest == s
    ensures lines != [] ==> line == lines[0] != "" && rest == Lines(lines[1..]) + (CRLF + s)
  {
    if lines == [] {
      line, rest := "", s;
    } else {
      assert GoodLine(lines[0]) && lines == [lines[0]] + lines[1..];
      line, rest := lines[0], Lines(lines[1..]) + (CRLF + s);
    }
  }

  lemma {:induction false} LinesUnique(a: seq<string>, b: seq<string>, s: string, t: string)
    requires GoodLines(a) && GoodLines(b)
    requires Lines(a) + (CRLF + s) == Lines(b) + (CRLF + t)
    ensures a == b && s == t
    decreases |a| + |b|
  {
    var line, rest := FirstOfBlock(a, s);
    var line', rest' := FirstOfBlock(b, t);
    FrontLine(line, rest);
    FrontLine(line', rest');
    if a != [] && b != [] {
      LinesUnique(a[1..], b[1..], s, t);
      assert a == [a[0]] + a[1..] && b == [b[0]] + b[1..];
    }
  }

  /** A stream starts with at most one message. */
  lemma FrameUnique(init: Start, f: Frame, g: Frame, stream: string)
    requires Accepts(init, f, stream) && Accepts(init, g, stream)
    ensures f == g
  {
    FrontLine(f.startLine, Lines(f.headerLines) + (CRLF + (f.body + f.rest)));
    FrontLine(g.startLine, Lines(g.headerLines) + (CRLF + (g.body + g.rest)));
    LinesUnique(f.headerLines, g.headerLines, f.body + f.rest, g.body + g.rest);
    GrammarParses(init, f, stream);
    GrammarParses(init, g, stream);
  }
}
