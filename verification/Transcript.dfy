/** The life of one connection: which bytes were read before each response, what was answered,
    and what the client receives. */
module Transcript {
  import opened Text
  import opened Seqs
  import opened MessageParser
  import opened ResponsePrinter
  import opened WriteBuffers
  import opened Workers

  /** The responses that one call queues: one or none. */
  function Responses(app: App, c: Conn, env: Env): seq<string>
    requires WellFormed(c)
  {
    if HasPending(c.outbox) || !env.recv.Bytes? || env.recv.data == "" then []
    else
      var p := Feed(c.parser, env.recv.data);
      match Report(c.parser.phase, p.phase)
      case NeedMoreData => []
      case Failed => [Serialized(BAD_REQUEST)]
      case Done => [Serialized(Reply(app, Request(p), env))]
  }

  /** What one call does to the write buffer. */
  function Ops(app: App, c: Conn, env: Env): seq<Op>
    requires WellFormed(c)
  {
    if HasPending(c.outbox) then [FlushWrite(env.sends)]
    else
      var responses := Responses(app, c, env);
      if responses == [] then [] else [QueueWrite(responses[0]), FlushWrite(env.sends)]
  }

  /** The bytes that one call reads. */
  function ReadBy(c: Conn, env: Env): string {
    if HasPending(c.outbox) || !env.recv.Bytes? then "" else env.recv.data
  }

  /** The bytes read since the response before, what they were answered with, and what the
      environment did in the call that answered them. */
  datatype Round = Round(read: string, answer: Answer, env: Env)

  /** `unanswered` are the bytes read since the last response was queued. */
  datatype Life = Life(
    conn: Conn, history: seq<Entry>, ops: seq<Op>, rounds: seq<Round>, responses: seq<string>, unanswered: string)

  /** The life after one more call. */
  function After(app: App, life: Life, env: Env): (r: Life)
    requires WellFormed(life.conn)
    ensures WellFormed(r.conn)
  {
    var o := Handle(app, life.conn, env);
    var read := life.unanswered + ReadBy(life.conn, env);
    var answered := o.entry.answer.Some?;
    Life(o.conn, life.history + [o.entry], life.ops + Ops(app, life.conn, env),
         if answered then life.rounds + [Round(read, o.entry.answer.value, env)] else life.rounds,
         life.responses + Responses(app, life.conn, env),
         if answered then "" else read)
  }

  /** The life of a connection through a series of calls. */
  function Lived(app: App, envs: seq<Env>): (life: Life)
    ensures WellFormed(life.conn)
    decreases |envs|
  {
    if envs == [] then Life(NEW_CONN, [], [], [], [], "")
    else After(app, Lived(app, envs[..|envs| - 1]), envs[|envs| - 1])
  }

  // ---------------------------------------------------------------------------------
  // What the client receives
  // ---------------------------------------------------------------------------------

  lemma {:induction false} QueuedSplit(a: seq<Op>, b: seq<Op>)
    ensures Queued(a + b) == Queued(a) + Queued(b)
  {
    if a == [] {
      assert a + b == b;
    } else {
      assert (a + b)[1..] == a[1..] + b;
      QueuedSplit(a[1..], b);
      var head := if a[0].QueueWrite? then a[0].data else "";
      assert head + (Queued(a[1..]) + Queued(b)) == head + Queued(a[1..]) + Queued(b);
    }
  }

  lemma {:induction false} ApplySplit(l: Ledger, a: seq<Op>, b: seq<Op>)
    requires WriteBuffers.Valid(l.box)
    ensures ApplyAll(l, a + b) == ApplyAll(ApplyAll(l, a), b)
    decreases |a|
  {
    if a == [] {
      assert a + b == b;
    } else {
      assert (a + b)[0] == a[0] && (a + b)[1..] == a[1..] + b;
      ApplySplit(Apply(l, a[0]), a[1..], b);
    }
  }

  lemma OneOrTwo(l: Ledger, text: string, sends: seq<Send>)
    requires WriteBuffers.Valid(l.box)
    ensures ApplyAll(l, [FlushWrite(sends)]).box == Flush(l.box, sends).box
    ensures ApplyAll(l, [QueueWrite(text), FlushWrite(sends)]).box == Flush(Queue(l.box, text), sends).box
    ensures Queued([FlushWrite(sends)]) == "" && Queued([QueueWrite(text), FlushWrite(sends)]) == text
  {
    var two, one := [QueueWrite(text), FlushWrite(sends)], [FlushWrite(sends)];
    assert two[1..] == one && one[1..] == [];
    var queued := Apply(l, QueueWrite(text));
    assert ApplyAll(queued, one) == Apply(queued, FlushWrite(sends));
    assert ApplyAll(l, two) == ApplyAll(queued, one);
    assert Queued(one) == "";
  }

  /** A call changes the write buffer by its operations and by nothing else. */
  lemma CallIsItsOps(app: App, c: Conn, pieces: seq<Piece>, env: Env)
    requires WellFormed(c)
    ensures ApplyAll(Ledger(c.outbox, pieces), Ops(app, c, env)).box == Handle(app, c, env).conn.outbox
    ensures Queued(Ops(app, c, env)) == Flatten(Responses(app, c, env))
  {
    var responses := Responses(app, c, env);
    var text := if responses == [] then "" else responses[0];
    OneOrTwo(Ledger(c.outbox, pieces), text, env.sends);
    CallFlushes(app, c, env);
    assert Flatten([text]) == text by {
      assert [text][1..] == [];
    }
  }

  /** What one call leaves in the write buffer. */
  lemma CallFlushes(app: App, c: Conn, env: Env)
    requires WellFormed(c)
    ensures var responses := Responses(app, c, env);
      && |responses| <= 1 && (HasPending(c.outbox) ==> responses == [])
      && Handle(app, c, env).conn.outbox
           == if HasPending(c.outbox) then Flush(c.outbox, env.sends).box
              else if responses == [] then c.outbox
              else Flush(Queue(c.outbox, responses[0]), env.sends).box
  {
  }

  lemma {:induction false} LifeIsItsOps(app: App, envs: seq<Env>)
    ensures var life := Lived(app, envs);
      && ApplyAll(Ledger(EMPTY, []), life.ops).box == life.conn.outbox
      && Queued(life.ops) == Flatten(life.responses)
    decreases |envs|
  {
    if envs != [] {
      var before, env := Lived(app, envs[..|envs| - 1]), envs[|envs| - 1];
      LifeIsItsOps(app, envs[..|envs| - 1]);
      var l := ApplyAll(Ledger(EMPTY, []), before.ops);
      CallIsItsOps(app, before.conn, l.pieces, env);
      ApplySplit(Ledger(EMPTY, []), before.ops, Ops(app, before.conn, env));
      QueuedSplit(before.ops, Ops(app, before.conn, env));
      FlattenSplit(before.responses, Responses(app, before.conn, env));
    }
  }

  ghost predicate NoSendFails(envs: seq<Env>) {
    forall i :: 0 <= i < |envs| ==> SendsWork(envs[i])
  }

  ghost predicate SendsWork(env: Env) {
    forall s :: s in env.sends ==> !Fails(s)
  }

  lemma {:induction false} LifeNeverFails(app: App, envs: seq<Env>)
    requires NoSendFails(envs)
    ensures NeverFails(Lived(app, envs).ops)
    decreases |envs|
  {
    if envs != [] {
      var before, env := Lived(app, envs[..|envs| - 1]), envs[|envs| - 1];
      LifeNeverFails(app, envs[..|envs| - 1]);
      assert SendsWork(env);
      var all, here := Lived(app, envs).ops, Ops(app, before.conn, env);
      forall i, j | 0 <= i < |all| && all[i].FlushWrite? && 0 <= j < |all[i].sends|
        ensures !Fails(all[i].sends[j])
      {
        if i < |before.ops| {
          assert all[i] == before.ops[i];
        } else {
          assert all[i] == here[i - |before.ops|] && all[i].sends == env.sends;
        }
      }
    }
  }

  /** The client's byte stream: over any series of calls on a new connection, with any reads,
      upstream answers, partial sends and failures, the bytes sent, the bytes dropped and the
      bytes pending are together the serialized responses in the order of their requests;
      while no send fails, the client has received a prefix of them. */
  lemma ClientReadsResponsesInOrder(app: App, envs: seq<Env>)
    ensures var life := Lived(app, envs);
      var l := ApplyAll(Ledger(EMPTY, []), life.ops);
      && Gone(l.pieces) + Pending(life.conn.outbox) == Flatten(life.responses)
      && (NoSendFails(envs) ==> Received(l.pieces) + Pending(life.conn.outbox) == Flatten(life.responses))
  {
    LifeIsItsOps(app, envs);
    WriteStreamConservation(Lived(app, envs).ops);
    if NoSendFails(envs) {
      LifeNeverFails(app, envs);
    }
  }

  /** No interleaving, byte by byte: whenever a call queues a response, every byte of all
      earlier responses has left the buffer. */
  lemma QueuedOnlyAfterTheRest(app: App, envs: seq<Env>, env: Env)
    requires Responses(app, Lived(app, envs).conn, env) != []
    ensures var life := Lived(app, envs);
      Gone(ApplyAll(Ledger(EMPTY, []), life.ops).pieces) == Flatten(life.responses)
  {
    ClientReadsResponsesInOrder(app, envs);
    assert Pending(Lived(app, envs).conn.outbox) == "";
  }

  // ---------------------------------------------------------------------------------
  // Which bytes are answered
  // ---------------------------------------------------------------------------------

  /** A served request is what the bytes read since the response before decode to, and its
      response is a reply to it; a refusal answers bytes that cannot be decoded. */
  ghost predicate Answers(app: App, r: Round, text: string) {
    var p := Feed(FRESH_REQUEST, r.read);
    match r.answer
    case Refused => p.phase == Error && text == Serialized(BAD_REQUEST)
    case Served(request, keepAlive) =>
      && p.phase == Complete && request == Request(p)
      && text == Serialized(Reply(app, request, r.env)) && keepAlive == Reply(app, request, r.env).keepAlive
  }

  ghost predicate AllAnswered(app: App, life: Life) {
    && |life.rounds| == |life.responses|
    && forall k :: 0 <= k < |life.rounds| ==> Answers(app, life.rounds[k], life.responses[k])
  }

  /** A parser that can still make progress holds the unanswered bytes, and nothing is read
      while a response is pending. */
  ghost predicate Attentive(life: Life) {
    if HasPending(life.conn.outbox) then life.unanswered == ""
    else Unfinished(life.conn.parser.phase) ==> life.conn.parser == Feed(FRESH_REQUEST, life.unanswered)
  }

  predicate MayContinue(c: Conn) {
    HasPending(c.outbox) || Unfinished(c.parser.phase)
  }

  lemma FreshIsSettled()
    ensures Feed(FRESH_REQUEST, "") == FRESH_REQUEST
  {
    assert Append(FRESH_REQUEST, "") == FRESH_REQUEST;
  }

  /** A parser that has been read to the end either waits with a pending response or is new. */
  lemma ServeLeaves(app: App, c: Conn, env: Env)
    requires WellFormed(c)
    ensures var o := Serve(app, c, env);
      (HasPending(o.conn.outbox) || o.conn.parser == FRESH_REQUEST) && o.entry.answer.Some?
  {
    FlushReportsDone(Queue(c.outbox, Serialized(Reply(app, Request(c.parser), env))), env.sends);
  }

  lemma ResumeLeaves(c: Conn, sends: seq<Send>)
    requires WellFormed(c)
    ensures var o := ResumeFlush(c, sends);
      (HasPending(o.conn.outbox) || o.conn.parser == FRESH_REQUEST) && o.entry.answer == None
  {
    FlushReportsDone(c.outbox, sends);
  }

  /** A call that reads `data` into a connection whose parser holds `held`. */
  lemma ReadingCall(app: App, c: Conn, held: string, env: Env)
    requires WellFormed(c) && !HasPending(c.outbox) && Unfinished(c.parser.phase)
    requires c.parser == Feed(FRESH_REQUEST, held)
    ensures var o := Handle(app, c, env);
      var texts := Responses(app, c, env);
      var read := held + ReadBy(c, env);
      match o.entry.answer
      case Some(answer) =>
        && |texts| == 1 && Answers(app, Round(read, answer, env), texts[0])
        && (HasPending(o.conn.outbox) || o.conn.parser == FRESH_REQUEST || o.conn.parser.phase == Error)
      case None =>
        texts == [] && o.conn.outbox == c.outbox && o.conn.parser == Feed(FRESH_REQUEST, read)
  {
    var data := ReadBy(c, env);
    if data == "" {
      assert held + data == held;
    } else {
      FeedSplit(FRESH_REQUEST, held, data);
      DataCall(app, c, held + data, env);
    }
  }

  lemma DataCall(app: App, c: Conn, read: string, env: Env)
    requires WellFormed(c) && !HasPending(c.outbox) && Unfinished(c.parser.phase)
    requires env.recv.Bytes? && env.recv.data != "" && Feed(c.parser, env.recv.data) == Feed(FRESH_REQUEST, read)
    ensures var o := Handle(app, c, env);
      var texts := Responses(app, c, env);
      match o.entry.answer
      case Some(answer) =>
        && |texts| == 1 && Answers(app, Round(read, answer, env), texts[0])
        && (HasPending(o.conn.outbox) || o.conn.parser == FRESH_REQUEST || o.conn.parser.phase == Error)
      case None =>
        texts == [] && o.conn.outbox == c.outbox && o.conn.parser == Feed(FRESH_REQUEST, read)
  {
    var p := Feed(c.parser, env.recv.data);
    var c' := c.(parser := p);
    match Report(c.parser.phase, p.phase)
    case NeedMoreData =>
    case Failed =>
      assert Handle(app, c, env) == Refuse(c', env.sends);
    case Done =>
      ServeLeaves(app, c', env);
      assert Handle(app, c, env) == Serve(app, c', env);
  }

  lemma AfterKeeps(app: App, life: Life, env: Env)
    requires WellFormed(life.conn) && Attentive(life) && AllAnswered(app, life) && MayContinue(life.conn)
    ensures Attentive(After(app, life, env)) && AllAnswered(app, After(app, life, env))
  {
    var c := life.conn;
    FreshIsSettled();
    if HasPending(c.outbox) {
      ResumeLeaves(c, env.sends);
      assert Handle(app, c, env) == ResumeFlush(c, env.sends) && Responses(app, c, env) == [];
      assert life.unanswered + ReadBy(c, env) == "";
    } else {
      ReadingCall(app, c, life.unanswered, env);
    }
  }

  /** Each of the calls finds the connection with something pending or its parser unfinished. */
  ghost predicate Welcome(app: App, envs: seq<Env>)
    decreases |envs|
  {
    envs == [] || (Welcome(app, envs[..|envs| - 1]) && MayContinue(Lived(app, envs[..|envs| - 1]).conn))
  }

  /** A life of welcome calls answers the bytes it reads. */
  lemma {:induction false} WelcomeLife(app: App, envs: seq<Env>)
    requires Welcome(app, envs)
    ensures Attentive(Lived(app, envs)) && AllAnswered(app, Lived(app, envs))
    decreases |envs|
  {
    if envs == [] {
      FreshIsSettled();
    } else {
      WelcomeLife(app, envs[..|envs| - 1]);
      AfterKeeps(app, Lived(app, envs[..|envs| - 1]), envs[|envs| - 1]);
    }
  }

  /** The answers of a history, in order. */
  function AnswersIn(history: seq<Entry>): seq<Answer> {
    if history == [] then []
    else
      var last := history[|history| - 1].answer;
      AnswersIn(history[..|history| - 1]) + if last.Some? then [last.value] else []
  }

  function RoundAnswers(rounds: seq<Round>): seq<Answer> {
    seq(|rounds|, i requires 0 <= i < |rounds| => rounds[i].answer)
  }

  /** The rounds of a life are the answers of its history. */
  lemma {:induction false} RoundsAreHistory(app: App, envs: seq<Env>)
    ensures RoundAnswers(Lived(app, envs).rounds) == AnswersIn(Lived(app, envs).history)
    decreases |envs|
  {
    if envs != [] {
      var before, life := Lived(app, envs[..|envs| - 1]), Lived(app, envs);
      RoundsAreHistory(app, envs[..|envs| - 1]);
      assert life.history[..|life.history| - 1] == before.history;
      if |life.rounds| > |before.rounds| {
        assert RoundAnswers(life.rounds) == RoundAnswers(before.rounds) + [life.rounds[|before.rounds|].answer];
      }
    }
  }

  // ---------------------------------------------------------------------------------
  // What a call does, exactly
  // ---------------------------------------------------------------------------------

  /** Nothing more will come: the peer has closed, or the read failed for good. */
  predicate EndOfStream(recv: Recv) {
    recv == Reset || recv == Bytes("")
  }

  /** The socket's answers make the flush of `text` return true. */
  predicate WrittenOut(text: string, sends: seq<Send>) {
    |text| <= Taken(sends) || StoppedBy(sends) != WouldBlock
  }

  /** Everything a call posts and answers, for each thing the environment may do. With a
      response pending it only writes. Otherwise it closes at the end of the stream; refuses
      bytes with an offending line; serves bytes that are a request; and waits for more if
      they are neither. */
  ghost predicate RightEntry(app: App, c: Conn, read: string, env: Env, e: Entry) {
    var p := Feed(FRESH_REQUEST, read);
    if HasPending(c.outbox) then
      && e.answer == None
      && e.action == (if !WrittenOut(Pending(c.outbox), env.sends) then WaitWritable
                      else if c.keepAlive then WaitReadable else Close)
    else if EndOfStream(env.recv) then e == Entry(None, Close)
    else if p.phase == Error then
      && e.answer == Some(Refused)
      && e.action == (if WrittenOut(Serialized(BAD_REQUEST), env.sends) then Close else WaitWritable)
    else if p.phase == Complete then
      var request := Request(p);
      var flag := request.keepAlive && (app == HttpServer || env.upstream.Exchange?);
      && e.answer == Some(Served(request, flag))
      && e.action == (if !WrittenOut(Serialized(Reply(app, request, env)), env.sends) then WaitWritable
                      else if flag || app == HttpServer then WaitReadable else Close)
    else e == Entry(None, WaitReadable)
  }

  lemma DoneIsWrittenOut(o: Outbox, sends: seq<Send>)
    requires WriteBuffers.Valid(o)
    ensures Flush(o, sends).done <==> WrittenOut(Pending(o), sends)
  {
    FlushExactly(o, sends);
  }

  lemma QueuedAlone(o: Outbox, text: string, sends: seq<Send>)
    requires WriteBuffers.Valid(o) && !HasPending(o)
    ensures Flush(Queue(o, text), sends).done <==> WrittenOut(text, sends)
  {
    DoneIsWrittenOut(Queue(o, text), sends);
    assert Pending(Queue(o, text)) == text;
  }

  lemma ServedEntry(app: App, c: Conn, env: Env)
    requires WellFormed(c) && !HasPending(c.outbox)
    ensures var request := Request(c.parser);
      var flag := request.keepAlive && (app == HttpServer || env.upstream.Exchange?);
      Serve(app, c, env).entry == Entry(Some(Served(request, flag)),
        if !WrittenOut(Serialized(Reply(app, request, env)), env.sends) then WaitWritable
        else if flag || app == HttpServer then WaitReadable else Close)
  {
    ReplyExactly(app, Request(c.parser), env);
    QueuedAlone(c.outbox, Serialized(Reply(app, Request(c.parser), env)), env.sends);
  }

  /** A call on a connection whose parser holds `held` does exactly that. */
  lemma CallExactly(app: App, c: Conn, held: string, env: Env)
    requires WellFormed(c) && MayContinue(c)
    requires if HasPending(c.outbox) then held == "" else c.parser == Feed(FRESH_REQUEST, held)
    ensures RightEntry(app, c, held + ReadBy(c, env), env, Handle(app, c, env).entry)
  {
    if HasPending(c.outbox) {
      DoneIsWrittenOut(c.outbox, env.sends);
    } else if env.recv.Bytes? && env.recv.data != "" {
      var p := Feed(c.parser, env.recv.data);
      FeedSplit(FRESH_REQUEST, held, env.recv.data);
      DataEntry(app, c, p, env);
    } else {
      assert held + ReadBy(c, env) == held;
    }
  }

  lemma DataEntry(app: App, c: Conn, p: Parser, env: Env)
    requires WellFormed(c) && !HasPending(c.outbox) && Unfinished(c.parser.phase)
    requires env.recv.Bytes? && env.recv.data != "" && p == Feed(c.parser, env.recv.data)
    ensures var e := Handle(app, c, env).entry;
      match p.phase
      case Error => e == Entry(Some(Refused), if WrittenOut(Serialized(BAD_REQUEST), env.sends) then Close else WaitWritable)
      case Complete =>
        var request := Request(p);
        var flag := request.keepAlive && (app == HttpServer || env.upstream.Exchange?);
        e == Entry(Some(Served(request, flag)),
          if !WrittenOut(Serialized(Reply(app, request, env)), env.sends) then WaitWritable
          else if flag || app == HttpServer then WaitReadable else Close)
      case _ => e == Entry(None, WaitReadable)
  {
    var c' := c.(parser := p);
    match p.phase
    case Error =>
      QueuedAlone(c'.outbox, Serialized(BAD_REQUEST), env.sends);
      assert Handle(app, c, env) == Refuse(c', env.sends);
    case Complete =>
      ServedEntry(app, c', env);
      assert Handle(app, c, env) == Serve(app, c', env);
    case _ =>
  }
}
