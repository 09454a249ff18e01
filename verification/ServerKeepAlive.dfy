/** `Connection: close` at the server: an input for which it reads on, and a run in which it
    does. */
module ServerKeepAlive {
  import opened Text
  import opened Messages
  import opened MessageParser
  import opened Grammar
  import opened Printing
  import opened Forwarding
  import opened ResponsePrinter
  import opened WriteBuffers
  import opened Workers
  import opened Handoff
  import opened HandoffHangups
  import opened Turns

  const CLOSING_BYTES: string := "GET / HTTP/1.1" + CRLF + "Connection: close" + CRLF + CRLF

  const CLOSING_START: Start := RequestLine("GET", "/", "HTTP/1.1")

  const CLOSING_GET: HttpRequest := HttpRequest("GET", "/", "HTTP/1.1", [CLOSE], "", false)

  lemma ClosingLine()
    ensures PrintStart(CLOSING_START) == "GET / HTTP/1.1"
    ensures Lines(PrintedLines([CLOSE])) == "Connection: close" + CRLF
  {
    CloseLine();
    var lines := PrintedLines([CLOSE]);
    assert lines == ["Connection: close"] && lines[1..] == [];
    assert Lines(lines) == "Connection: close" + CRLF + Lines([]);
  }

  lemma ClosingBytes()
    ensures Print(CLOSING_START, [CLOSE], "") == CLOSING_BYTES
  {
    ClosingLine();
    assert CRLF + "" == CRLF;
  }

  lemma ClosingHeaders()
    ensures GoodStart(CLOSING_START) && GoodHeaders([CLOSE])
    ensures ContentLength([CLOSE]) == 0 && !KeepAlive([CLOSE], "HTTP/1.1")
  {
    CloseIsConnection();
    assert forall k: nat :: !CrlfAt("GET", k) && !CrlfAt("/", k);
    OneHeader(CLOSE, "Content-Length");
    OneHeader(CLOSE, "Connection");
    assert |Lower("Connection")| == 10 && |Lower("Content-Length")| == 14;
    assert Lower("close") == "close";
    assert MatchAt(Lower("close"), "close", 0);
  }

  lemma ClosingRequestParses()
    ensures Feed(FRESH_REQUEST, CLOSING_BYTES) == Parser(Complete, "", 0, CLOSING_START, [CLOSE], "", false)
  {
    ClosingBytes();
    ClosingHeaders();
    ParsePrint(FRESH_REQUEST.start, CLOSING_START, [CLOSE], "");
  }

  /** One send that takes everything. */
  lemma FullSend(o: Outbox, n: nat)
    requires WriteBuffers.Valid(o) && HasPending(o) && n >= |o.buffer|
    ensures Flush(o, [Sent(n)]).done && Flush(o, [Sent(n)]).box == EMPTY
  {
    var rest := o.(offset := |o.buffer|);
    assert Flush(rest, [Sent(n)][1..]) == Flushed(EMPTY, true, "", "");
  }

  /** The environment of one call: the closing request arrives and the response leaves at once. */
  function AllAtOnce(routed: HttpResponse): Env {
    Env(Bytes(CLOSING_BYTES), NoneHealthy, routed, [Sent(|Serialized(routed.(keepAlive := false))|)])
  }

  /** The server answers, and waits for another request although the client asked it to close. */
  lemma ServerReadsOn(routed: HttpResponse)
    ensures Handle(HttpServer, NEW_CONN, AllAtOnce(routed))
         == Outcome(NEW_CONN.(keepAlive := false), Entry(Some(Served(CLOSING_GET, false)), WaitReadable))
  {
    ClosingRequestParses();
    var reply := routed.(keepAlive := false);
    var queued := Queue(EMPTY, Serialized(reply));
    assert queued.buffer == Serialized(reply);
    FullSend(queued, |Serialized(reply)|);
  }

  /** The connection of a finished call, waiting to be readable again. */
  function ReadingOn(fd: nat): State {
    OneConnection(fd).(heap := map[0 := NEW_CONN.(keepAlive := false)],
                       history := map[0 := [Entry(Some(Served(CLOSING_GET, false)), WaitReadable)]])
  }

  /** A worker that holds the new connection makes its call and posts the action. */
  lemma WorkerCalls(cfg: Config, fd: nat, env: Env, o: Outcome)
    requires Reachable(cfg, WorkerHolds(fd)) && Handle(cfg.app, NEW_CONN, env) == o
    ensures Reachable(cfg, OneConnection(fd).(armed := map[], heap := map[0 := o.conn], history := map[0 := [o.entry]],
                                              pending := [Rearm(Tok(fd, 0), o.entry.action)]))
  {
    var s := OneConnection(fd).(armed := map[]);
    assert [] + [Worker(Tok(fd, 0), Holding(0))] == [Worker(Tok(fd, 0), Holding(0))];
    assert RunsTo(cfg, INIT, s.(running := s.running + [Worker(Tok(fd, 0), Holding(0))]));
    TaskCalled(cfg, INIT, s, Tok(fd, 0), 0, env, o);
    assert s.heap[0 := o.conn] == map[0 := o.conn] && s.history[0] + [o.entry] == [o.entry];
    assert s.history[0 := [o.entry]] == map[0 := [o.entry]];
    assert [] + [Rearm(Tok(fd, 0), o.entry.action)] == [Rearm(Tok(fd, 0), o.entry.action)];
  }

  /** In a run of the server a connection is served a request that asks to close, the response
      is fully written, and the connection is open and armed to be readable. */
  lemma ServerRunReadsOn(cfg: Config, fd: nat, routed: HttpResponse)
    requires fd != cfg.listenFd && cfg.workers > 0 && cfg.app == HttpServer
    ensures var s := ReadingOn(fd);
      && Reachable(cfg, s) && s.armed[fd].wants == WaitReadable
      && s.history[s.connections[fd]] == [Entry(Some(Served(CLOSING_GET, false)), WaitReadable)]
  {
    DispatchOne(cfg, fd);
    ServerReadsOn(routed);
    WorkerCalls(cfg, fd, AllAtOnce(routed), Handle(HttpServer, NEW_CONN, AllAtOnce(routed)));
    ServerRearms(cfg, fd);
  }

  lemma RearmApplied(cfg: Config, s: State, posted: Rearm)
    requires s.pc == Top && s.pending == [] && s.batch == []
    requires posted.action == WaitReadable && posted.tok.fd in s.connections
    requires s.armed == map[posted.tok.fd := Armed(s.connections[posted.tok.fd], WaitReadable)]
    requires Reachable(cfg, s.(armed := map[], pending := [posted]))
    ensures Reachable(cfg, s.(pc := Applying))
  {
    var off := s.(armed := map[]);
    ReachStep(cfg, off.(pending := [posted]), Swap, off.(batch := [posted], pc := Applying));
    assert [posted][1..] == [];
    ReachStep(cfg, off.(batch := [posted], pc := Applying), ApplyNext, s.(pc := Applying));
  }

  lemma ServerRearms(cfg: Config, fd: nat)
    requires Reachable(cfg, ReadingOn(fd).(armed := map[], pending := [Rearm(Tok(fd, 0), WaitReadable)]))
    ensures Reachable(cfg, ReadingOn(fd))
  {
    var s := ReadingOn(fd);
    var posted := Rearm(Tok(fd, 0), WaitReadable);
    RearmApplied(cfg, s, posted);
    ReachStep(cfg, s.(pc := Applying), Wait([]), s.(pc := Dispatching));
    ReachStep(cfg, s.(pc := Dispatching), Loop, s);
  }
}
