/** One worker's handling of one ready connection: `LoadBalancer::handleClientEvent` and
    `HttpServer::handleConnectionEvent`, and what a connection's whole history looks like. */
module Workers {
  import opened Text
  import opened Messages
  import opened MessageParser
  import opened Forwarding
  import opened ResponsePrinter
  import opened WriteBuffers

  datatype App = LoadBalancer | HttpServer

  datatype Action = WaitReadable | WaitWritable | Close

  /** The fields of a `Connection`: parser, write buffer, `pendingKeepAlive_`. */
  datatype Conn = Conn(parser: Parser, outbox: Outbox, keepAlive: bool)

  const NEW_CONN: Conn := Conn(FRESH_REQUEST, EMPTY, true)

  /** The default fields of a connection and of a response. */
  lemma Defaults()
    ensures NEW_CONN.parser == Parser(StartLine, "", 0, RequestLine("", "", ""), [], "", true)
    ensures NEW_CONN.outbox == Outbox("", 0) && NEW_CONN.keepAlive
    ensures FRESH_RESPONSE == Parser(StartLine, "", 0, StatusLine(200, "OK"), [], "", true)
    ensures JsonResponse(200, "OK", "").keepAlive
  {
  }

  predicate WellFormed(c: Conn) {
    c.parser.start.RequestLine? && Valid(c.outbox)
  }

  /** What `recv` may answer. No bytes means that the peer closed. */
  datatype Recv = Bytes(data: string) | Again | Reset

  /** How the upstream exchange may go: no healthy upstream, no socket, or an exchange that
      yields a byte stream unless connecting or sending failed. */
  datatype Upstream = NoneHealthy | NoSocket | Exchange(stream: Option<string>)

  /** Everything outside the worker's control during one call. The load balancer consults
      `upstream`, the server consults `routed`, the answer of its router. */
  datatype Env = Env(recv: Recv, upstream: Upstream, routed: HttpResponse, sends: seq<Send>)

  const BAD_REQUEST: HttpResponse :=
    JsonResponse(400, "Bad Request", "{\"error\":\"bad request\"}").(keepAlive := false)

  function BadGateway(json: string): HttpResponse {
    JsonResponse(502, "Bad Gateway", json)
  }

  /** The response to a complete request, with the keep-alive flag that is set with it. */
  function Reply(app: App, req: HttpRequest, env: Env): HttpResponse {
    match app
    case HttpServer => env.routed.(keepAlive := req.keepAlive)
    case LoadBalancer =>
      match env.upstream
      case NoneHealthy => BadGateway("{\"error\":\"no healthy upstream\"}").(keepAlive := false)
      case NoSocket => BadGateway("{\"error\":\"upstream connect failed\"}").(keepAlive := false)
      case Exchange(stream) =>
        var answer := if stream.Some? then AnswerIn(stream.value) else None;
        var r := if answer.Some? then answer.value else BadGateway("{\"error\":\"upstream request failed\"}");
        r.(keepAlive := req.keepAlive)
  }

  /** Whose answer a request gets, and whether the client may stay. The server gives its
      router's answer, the load balancer the upstream's if the exchange yields a complete one
      and a 502 otherwise; the flag is the client's wish if there was anyone to ask. */
  lemma ReplyExactly(app: App, req: HttpRequest, env: Env)
    ensures var r := Reply(app, req, env);
      && (r.keepAlive <==> req.keepAlive && (app == HttpServer || env.upstream.Exchange?))
      && (app == HttpServer ==>
            r.status == env.routed.status && r.reason == env.routed.reason
            && r.headers == env.routed.headers && r.body == env.routed.body)
      && (app == LoadBalancer && Answered(env.upstream) ==>
            var p := Feed(FRESH_RESPONSE, env.upstream.stream.value);
            StatusLine(r.status, r.reason) == p.start && r.headers == p.headers && r.body == p.body)
      && (app == LoadBalancer && !Answered(env.upstream) ==>
            r.status == 502 && r.reason == "Bad Gateway" && r.headers == [Header("Content-Type", "application/json")]
            && r.body == match env.upstream
                         case NoneHealthy => "{\"error\":\"no healthy upstream\"}"
                         case NoSocket => "{\"error\":\"upstream connect failed\"}"
                         case Exchange(_) => "{\"error\":\"upstream request failed\"}")
  {
  }

  /** The exchange with the upstream brought a complete response. */
  predicate Answered(upstream: Upstream) {
    upstream.Exchange? && upstream.stream.Some? && Feed(FRESH_RESPONSE, upstream.stream.value).phase == Complete
  }

  /** A response that was queued: the 400, or the one for a complete request. */
  datatype Answer = Refused | Served(request: HttpRequest, keepAlive: bool)

  /** What one call did: the response it queued, if any, and the re-arm it posted. */
  datatype Entry = Entry(answer: Option<Answer>, action: Action)

  datatype Outcome = Outcome(conn: Conn, entry: Entry)

  function ByFlag(keepAlive: bool): Action {
    if keepAlive then WaitReadable else Close
  }

  /** The request flag as `handleConnectionEvent` reads it after `reset()`: a reference into
      the parser, which then holds the default. */
  function FlagAfterReset(): bool {
    FRESH_REQUEST.keepAlive
  }

  /** The branch that finishes a response left over from an earlier call. */
  function ResumeFlush(c: Conn, sends: seq<Send>): Outcome
    requires WellFormed(c)
  {
    var f := Flush(c.outbox, sends);
    if !f.done then Outcome(c.(outbox := f.box), Entry(None, WaitWritable))
    else Outcome(c.(outbox := f.box, parser := FRESH_REQUEST), Entry(None, ByFlag(c.keepAlive)))
  }

  /** The branch for a malformed request. */
  function Refuse(c: Conn, sends: seq<Send>): Outcome
    requires WellFormed(c)
  {
    var f := Flush(Queue(c.outbox, Serialized(BAD_REQUEST)), sends);
    Outcome(c.(outbox := f.box, keepAlive := false),
            Entry(Some(Refused), if f.done then Close else WaitWritable))
  }

  /** The branch for a complete request. */
  function Serve(app: App, c: Conn, env: Env): Outcome
    requires WellFormed(c)
  {
    var req := Request(c.parser);
    var reply := Reply(app, req, env);
    var f := Flush(Queue(c.outbox, Serialized(reply)), env.sends);
    var answer := Some(Served(req, reply.keepAlive));
    var c' := c.(outbox := f.box, keepAlive := reply.keepAlive);
    if !f.done then Outcome(c', Entry(answer, WaitWritable))
    else
      var flag := match app case LoadBalancer => reply.keepAlive case HttpServer => FlagAfterReset();
      Outcome(c'.(parser := FRESH_REQUEST), Entry(answer, ByFlag(flag)))
  }

  function Handle(app: App, c: Conn, env: Env): Outcome
    requires WellFormed(c)
  {
    if HasPending(c.outbox) then ResumeFlush(c, env.sends)
    else
      match env.recv
      case Again => Outcome(c, Entry(None, WaitReadable))
      case Reset => Outcome(c, Entry(None, Close))
      case Bytes(data) =>
        if data == "" then Outcome(c, Entry(None, Close))
        else
          var p := Feed(c.parser, data);
          var c' := c.(parser := p);
          match Report(c.parser.phase, p.phase)
          case NeedMoreData => Outcome(c', Entry(None, WaitReadable))
          case Failed => Refuse(c', env.sends)
          case Done => Serve(app, c', env)
  }

  // ---------------------------------------------------------------------------------
  // Histories
  // ---------------------------------------------------------------------------------

  /** Where a connection stands between two calls, judged by its history alone. */
  datatype Mode = Idle | Flushing(refused: bool, keepAlive: bool) | Closed | Stuck

  function AfterAction(action: Action): Mode {
    match action
    case WaitReadable => Idle
    case WaitWritable => Stuck
    case Close => Closed
  }

  /** The action that follows a response written out in the call that queued it. */
  function AtOnce(app: App, refused: bool, keepAlive: bool): Action {
    if app == LoadBalancer || refused then ByFlag(keepAlive) else WaitReadable
  }

  function Advance(app: App, m: Mode, e: Entry): Mode {
    match m
    case Idle =>
      (match e.answer
       case None => AfterAction(e.action)
       case Some(a) =>
         var keepAlive := a.Served? && a.keepAlive;
         if e.action == WaitWritable then Flushing(a.Refused?, keepAlive)
         else if e.action == AtOnce(app, a.Refused?, keepAlive) then AfterAction(e.action)
         else Stuck)
    case Flushing(_, keepAlive) =>
      if e.answer.Some? then Stuck
      else if e.action == WaitWritable then m
      else if e.action == ByFlag(keepAlive) then AfterAction(e.action)
      else Stuck
    case Closed => Stuck
    case Stuck => Stuck
  }

  function Track(app: App, history: seq<Entry>): Mode {
    if history == [] then Idle
    else Advance(app, Track(app, history[..|history| - 1]), history[|history| - 1])
  }

  predicate Unfinished(phase: Phase) {
    phase != Complete && phase != Error
  }

  /** Write-mode agreement. A connection that waits to be readable has nothing pending and an
      unfinished parser; one that waits to be writable has pending bytes and a parser that is
      done or has failed, and a failed one will close; the history agrees in every case. */
  predicate Fits(app: App, c: Conn, history: seq<Entry>, action: Action) {
    && WellFormed(c)
    && match action
       case WaitReadable =>
         !HasPending(c.outbox) && Unfinished(c.parser.phase) && Track(app, history) == Idle
       case WaitWritable =>
         && HasPending(c.outbox) && !Unfinished(c.parser.phase)
         && (c.parser.phase == Error ==> !c.keepAlive)
         && Track(app, history) == Flushing(c.parser.phase == Error, c.keepAlive)
       case Close => Track(app, history) == Closed
  }

  predicate Ready(app: App, c: Conn, history: seq<Entry>) {
    Fits(app, c, history, WaitReadable) || Fits(app, c, history, WaitWritable)
  }

  lemma ResumeFits(app: App, c: Conn, history: seq<Entry>, sends: seq<Send>)
    requires Fits(app, c, history, WaitWritable)
    ensures var o := ResumeFlush(c, sends); Fits(app, o.conn, history + [o.entry], o.entry.action)
  {
    FlushReportsDone(c.outbox, sends);
  }

  lemma RefuseFits(app: App, c: Conn, history: seq<Entry>, sends: seq<Send>)
    requires WellFormed(c) && c.parser.phase == Error && Track(app, history) == Idle
    ensures var o := Refuse(c, sends); Fits(app, o.conn, history + [o.entry], o.entry.action)
  {
    FlushReportsDone(Queue(c.outbox, Serialized(BAD_REQUEST)), sends);
  }

  lemma ServeFits(app: App, c: Conn, history: seq<Entry>, env: Env)
    requires WellFormed(c) && c.parser.phase == Complete && Track(app, history) == Idle
    ensures var o := Serve(app, c, env); Fits(app, o.conn, history + [o.entry], o.entry.action)
  {
    var reply := Reply(app, Request(c.parser), env);
    FlushReportsDone(Queue(c.outbox, Serialized(reply)), env.sends);
  }

  /** Every call on a ready connection leaves it fitting the action it posts. In particular
      `consume` is only called on an unfinished parser, and a response is only queued when
      nothing is pending. */
  lemma HandleFits(app: App, c: Conn, history: seq<Entry>, env: Env)
    requires Ready(app, c, history)
    ensures var o := Handle(app, c, env); Fits(app, o.conn, history + [o.entry], o.entry.action)
    ensures !HasPending(c.outbox) ==> Unfinished(c.parser.phase)
  {
    if HasPending(c.outbox) {
      ResumeFits(app, c, history, env.sends);
    } else {
      if env.recv.Bytes? && env.recv.data != "" {
        var p := Feed(c.parser, env.recv.data);
        match Report(c.parser.phase, p.phase) {
          case NeedMoreData =>
          case Failed => RefuseFits(app, c.(parser := p), history, env.sends);
          case Done => ServeFits(app, c.(parser := p), history, env);
        }
      }
    }
  }

  // ---------------------------------------------------------------------------------
  // What a history that never got stuck guarantees
  // ---------------------------------------------------------------------------------

  /** A history that is not stuck was never stuck before. */
  lemma {:induction false} PrefixNotStuck(app: App, history: seq<Entry>, n: nat)
    requires Track(app, history) != Stuck && n <= |history|
    ensures Track(app, history[..n]) != Stuck
    decreases |history| - n
  {
    if n < |history| {
      PrefixNotStuck(app, history, n + 1);
      assert history[..n + 1][..n] == history[..n] && history[..n + 1][n] == history[n];
    } else {
      assert history[..n] == history;
    }
  }

  lemma TrackStep(app: App, history: seq<Entry>, n: nat)
    requires n < |history|
    ensures Track(app, history[..n + 1]) == Advance(app, Track(app, history[..n]), history[n])
  {
    assert history[..n + 1] == history[..n] + [history[n]];
  }

  lemma {:induction false} AfterRefusal(app: App, history: seq<Entry>, i: nat, n: nat)
    requires Track(app, history) != Stuck && i < n <= |history|
    requires history[i].answer == Some(Refused)
    ensures Track(app, history[..n]) == Flushing(true, false) || Track(app, history[..n]) == Closed
    ensures history[n - 1].action != WaitReadable
    ensures n - 1 > i ==> history[n - 1].answer == None && history[n - 2].action == WaitWritable
  {
    PrefixNotStuck(app, history, n);
    TrackStep(app, history, n - 1);
    if n - 1 > i {
      AfterRefusal(app, history, i, n - 1);
      PrefixNotStuck(app, history, n - 1);
      TrackStep(app, history, n - 2);
    }
  }

  /** A malformed request gets exactly one 400: nothing is answered or served after it, the
      remaining calls only finish writing it, and the connection is never read again. */
  lemma RefusalIsFinal(app: App, history: seq<Entry>, i: nat, j: nat)
    requires Track(app, history) != Stuck && i <= j < |history|
    requires history[i].answer == Some(Refused)
    ensures history[j].action != WaitReadable
    ensures j > i ==> history[j].answer == None
    ensures j + 1 < |history| ==> history[j].action == WaitWritable
  {
    AfterRefusal(app, history, i, j + 1);
    if j + 1 < |history| {
      AfterRefusal(app, history, i, j + 2);
    }
  }

  lemma {:induction false} WhileFlushing(app: App, history: seq<Entry>, i: nat, j: nat)
    requires Track(app, history) != Stuck && i < j <= |history|
    requires history[i].answer.Some? && history[i].answer.value.Served?
    requires forall k :: i <= k < j ==> history[k].action == WaitWritable
    ensures Track(app, history[..j]) == Flushing(false, history[i].answer.value.keepAlive)
    decreases j
  {
    PrefixNotStuck(app, history, j);
    TrackStep(app, history, j - 1);
    if j - 1 > i {
      WhileFlushing(app, history, i, j - 1);
    }
  }

  /** Keep-alive: after a response is fully written, at once or over any number of partial
      flushes, the load balancer closes exactly when the flag set with it is off. The server
      does so exactly when the flag is on or the write was not finished at once; otherwise it
      waits for another request. */
  lemma KeepAliveHonoured(app: App, history: seq<Entry>, i: nat, j: nat)
    requires Track(app, history) != Stuck && i <= j < |history|
    requires history[i].answer.Some? && history[i].answer.value.Served?
    requires forall k :: i <= k < j ==> history[k].action == WaitWritable
    requires history[j].action != WaitWritable
    ensures history[j].action == ByFlag(history[i].answer.value.keepAlive)
      <==> app == LoadBalancer || history[i].answer.value.keepAlive || i < j
    ensures app == HttpServer && i == j ==> history[j].action == WaitReadable
  {
    PrefixNotStuck(app, history, j + 1);
    TrackStep(app, history, j);
    if i < j {
      WhileFlushing(app, history, i, j);
    }
  }

  /** Responses never interleave: the call before the one that queues a response has left the
      connection waiting to be readable, which needs every earlier response to have left the
      buffer. */
  lemma {:induction false} ResponsesDoNotInterleave(app: App, history: seq<Entry>, j: nat)
    requires Track(app, history) != Stuck && 0 < j < |history|
    requires history[j].answer.Some?
    ensures history[j - 1].action == WaitReadable
  {
    PrefixNotStuck(app, history, j + 1);
    TrackStep(app, history, j);
    TrackStep(app, history, j - 1);
  }

  // ---------------------------------------------------------------------------------
  // The connection object
  // ---------------------------------------------------------------------------------

  class Connection {
    const parser: HttpParser
    var writeBuffer: string
    var writeOffset: nat
    var pendingKeepAlive: bool

    ghost predicate Valid()
      reads this, parser
    {
      writeOffset <= |writeBuffer| && parser.start.RequestLine?
    }

    function Box(): Outbox
      reads this
    {
      Outbox(writeBuffer, writeOffset)
    }

    function Snapshot(): Conn
      reads this, parser
    {
      Conn(parser.Snapshot(), Box(), pendingKeepAlive)
    }

    constructor ()
      ensures Valid() && fresh(parser) && Snapshot() == NEW_CONN
    {
      parser := new HttpParser.ForRequests();
      writeBuffer, writeOffset, pendingKeepAlive := "", 0, true;
    }

    method QueueWrite(data: string)
      requires Valid()
      modifies this`writeBuffer
      ensures Valid() && Box() == Queue(old(Box()), data)
    {
      writeBuffer := writeBuffer + data;
    }

    /** The send loop. `sends` are the answers of the socket, in order. */
    method FlushWrite(sends: seq<Send>) returns (done: bool)
      requires Valid()
      modifies this`writeBuffer, this`writeOffset
      ensures Valid()
      ensures Box() == Flush(old(Box()), sends).box && done == Flush(old(Box()), sends).done
    {
      var i := 0;
      while writeOffset < |writeBuffer|
        invariant writeOffset <= |writeBuffer| && i <= |sends| && writeBuffer == old(writeBuffer)
        invariant Flush(old(Box()), sends).box == Flush(Box(), sends[i..]).box
        invariant Flush(old(Box()), sends).done == Flush(Box(), sends[i..]).done
        decreases |writeBuffer| - writeOffset
      {
        assert i < |sends| ==> sends[i..][0] == sends[i] && sends[i..][1..] == sends[i + 1..];
        if i == |sends| || sends[i] == WouldBlock {
          return false;
        }
        if Fails(sends[i]) {
          writeOffset := |writeBuffer|;
          return true;
        }
        writeOffset := writeOffset + Min(sends[i].n, |writeBuffer| - writeOffset);
        i := i + 1;
      }
      if writeOffset == |writeBuffer| && writeBuffer != "" {
        writeBuffer, writeOffset := "", 0;
      }
      done := true;
    }

    /** The bodies of `handleClientEvent` and `handleConnectionEvent` after the lookup. */
    method HandleEvent(app: App, env: Env) returns (entry: Entry)
      requires Valid()
      modifies this, parser
      ensures Valid() && Outcome(Snapshot(), entry) == Handle(app, old(Snapshot()), env)
    {
      if writeOffset < |writeBuffer| {
        var done := FlushWrite(env.sends);
        if !done {
          return Entry(None, WaitWritable);
        }
        parser.Reset();
        return Entry(None, ByFlag(pendingKeepAlive));
      }
      if env.recv == Again {
        return Entry(None, WaitReadable);
      }
      if env.recv == Reset || env.recv.data == "" {
        return Entry(None, Close);
      }
      var status := parser.Consume(env.recv.data);
      if status == NeedMoreData {
        return Entry(None, WaitReadable);
      }
      if status == Failed {
        var text := Serialize(BAD_REQUEST);
        entry := AnswerAndFlush(text, false, Refused, env.sends);
        if entry.action != WaitWritable {
          entry := entry.(action := Close);
        }
        return;
      }
      var req := Request(parser.Snapshot());
      var reply := Reply(app, req, env);
      var text := Serialize(reply);
      entry := AnswerAndFlush(text, reply.keepAlive, Served(req, reply.keepAlive), env.sends);
      if entry.action == WaitWritable {
        return;
      }
      parser.Reset();
      entry := entry.(action :=
        ByFlag(if app == LoadBalancer then pendingKeepAlive else parser.keepAlive));
    }

    /** `setPendingKeepAlive`, `queueWrite` and the first `flushWrite`. */
    method AnswerAndFlush(text: string, keepAlive: bool, answer: Answer, sends: seq<Send>)
      returns (entry: Entry)
      requires Valid()
      modifies this
      ensures Valid() && pendingKeepAlive == keepAlive
      ensures var f := Flush(Queue(old(Box()), text), sends);
        && Box() == f.box
        && entry == Entry(Some(answer), if f.done then WaitReadable else WaitWritable)
    {
      pendingKeepAlive := keepAlive;
      QueueWrite(text);
      var done := FlushWrite(sends);
      entry := Entry(Some(answer), if done then WaitReadable else WaitWritable);
    }
  }
}
