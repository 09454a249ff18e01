/** The common shape of the two printers, and the proof that the parser undoes it. */
module Printing {
  import opened Text
  import opened Messages
  import opened MessageParser
  import opened Grammar

  function PrintedLines(headers: seq<Header>): (lines: seq<string>)
    ensures |lines| == |headers|
  {
    seq(|headers|, i requires 0 <= i < |headers| => PrintHeader(headers[i]))
  }

  /** Start line, header lines, empty line, body. */
  function Print(start: Start, headers: seq<Header>, body: string): string {
    PrintStart(start) + CRLF + (Lines(PrintedLines(headers)) + (CRLF + body))
  }

  /** The bytes of the header lines. */
  function HeaderBytes(headers: seq<Header>): string {
    if headers == [] then ""
    else headers[0].name + ": " + headers[0].value + "\r\n" + HeaderBytes(headers[1..])
  }

  lemma {:induction false} PrintedBytes(headers: seq<Header>)
    ensures Lines(PrintedLines(headers)) == HeaderBytes(headers)
  {
    if headers != [] {
      PrintedBytes(headers[1..]);
      assert PrintedLines(headers)[1..] == PrintedLines(headers[1..]);
    }
  }

  ghost predicate GoodHeaders(headers: seq<Header>) {
    forall h :: h in headers ==> GoodHeader(h)
  }

  lemma PrintedLinesGood(headers: seq<Header>)
    requires GoodHeaders(headers)
    ensures GoodLines(PrintedLines(headers)) && HeadersOf(PrintedLines(headers)) == headers
  {
    var lines := PrintedLines(headers);
    forall i | 0 <= i < |lines|
      ensures GoodLine(lines[i]) && ParseHeaderLine(lines[i]) == Some(headers[i])
    {
      ParsePrintHeader(headers[i]);
    }
  }

  /** The parser undoes the printer: a printed message is parsed completely, with nothing
      left over, to the very same start line, headers and body. */
  lemma ParsePrint(init: Start, start: Start, headers: seq<Header>, body: string)
    requires GoodStart(start) && init.RequestLine? == start.RequestLine?
    requires GoodHeaders(headers) && ContentLength(headers) == |body|
    ensures Feed(Fresh(init), Print(start, headers, body))
         == Parser(Complete, "", |body|, start, headers, body, KeepAlive(headers, Version(start)))
  {
    ParsePrintStart(init, start);
    PrintedLinesGood(headers);
    var f := Frame(PrintStart(start), PrintedLines(headers), body, "");
    assert body + "" == body;
    GrammarParses(init, f, Print(start, headers, body));
  }

  lemma {:induction false} LinesSnoc(lines: seq<string>, line: string)
    ensures Lines(lines + [line]) == Lines(lines) + (line + CRLF)
    decreases |lines|
  {
    if lines == [] {
      assert [line][1..] == [] && line + CRLF + "" == line + CRLF;
    } else {
      LinesSnoc(lines[1..], line);
      assert (lines + [line])[1..] == lines[1..] + [line];
      var head := lines[0] + CRLF;
      assert head + (Lines(lines[1..]) + (line + CRLF)) == head + Lines(lines[1..]) + (line + CRLF);
    }
  }

  /** Appending one header to what has been printed so far. */
  lemma PrintOneMore(headers: seq<Header>, h: Header, out: string, prefix: string)
    requires out == prefix + Lines(PrintedLines(headers))
    ensures out + PrintHeader(h) + CRLF == prefix + Lines(PrintedLines(headers + [h]))
  {
    LinesSnoc(PrintedLines(headers), PrintHeader(h));
    assert PrintedLines(headers + [h]) == PrintedLines(headers) + [PrintHeader(h)];
    var all := Lines(PrintedLines(headers));
    assert prefix + all + PrintHeader(h) + CRLF == prefix + (all + (PrintHeader(h) + CRLF));
  }

  /** The empty line and the body close the message. */
  lemma PrintClosed(start: Start, headers: seq<Header>, body: string, out: string, prefix: string)
    requires prefix == PrintStart(start) + CRLF && out == prefix + Lines(PrintedLines(headers))
    ensures out + (CRLF + body) == Print(start, headers, body)
  {
    var lines := Lines(PrintedLines(headers));
    assert prefix + lines + (CRLF + body) == prefix + (lines + (CRLF + body));
  }
}
