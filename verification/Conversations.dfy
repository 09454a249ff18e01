/** Every connection of every run of the hand-off, from its client's point of view.

    A run interleaves the reactor with any number of workers, and the calls of one connection
    are spread over it.  Each call sees whatever part of a request has arrived, resumes
    whatever part of a response has not left, and may be carried out by another thread than
    the call before.  Here the calls of one connection are picked out of a run, and what they
    did together is compared with what a client expects: its bytes are cut into requests as
    the grammar says and not as the reads happened to fall, each request is answered once
    with a reply to it, and the answers arrive in order.  Descriptors are reused, so a
    connection is named by its identity, and the theorems also cover the closed ones. */
module Conversations {
  import opened Text
  import opened Seqs
  import opened Messages
  import MessageParser
  import opened Grammar
  import opened Spelling
  import opened LineShapes
  import opened WriteBuffers
  import opened Workers
  import opened Transcript
  import opened Handoff
  import opened HandoffOwnership
  import opened HandoffSafety
  import opened HandoffHangups

  /** What the environment answered, if the step is a call for connection `id`. */
  function CallOf(s: State, l: Label, id: nat): seq<Env> {
    if l.Act? && l.i < |s.running| && s.running[l.i].stage == Holding(id) then [l.env] else []
  }

  /** What it answered to all the calls that a run makes for connection `id`. */
  function Calls(cfg: Config, s: State, labels: seq<Label>, id: nat): seq<Env>
    decreases |labels|
  {
    if labels == [] then []
    else match Step(cfg, s, labels[0])
      case None => []
      case Some(next) => CallOf(s, labels[0], id) + Calls(cfg, next, labels[1..], id)
  }

  /** Connection `id`, dead or alive, has the history of these calls, and if it is alive it
      is in the state which they lead to. */
  ghost predicate LivedAs(cfg: Config, s: State, id: nat, envs: seq<Env>) {
    var life := Lived(cfg.app, envs);
    && id in s.history && s.history[id] == life.history
    && (id in s.heap ==> s.heap[id] == life.conn)
    && Welcome(cfg.app, envs)
  }

  ghost predicate Begun(cfg: Config, s: State, id: nat, envs: seq<Env>) {
    if id in s.history then LivedAs(cfg, s, id, envs) else envs == []
  }

  // ---------------------------------------------------------------------------------
  // Every step continues the life
  // ---------------------------------------------------------------------------------

  lemma Untouched(cfg: Config, s: State, l: Label, id: nat)
    requires Step(cfg, s, l).Some? && !(l.Act? && s.running[l.i].stage.conn == id) && !(l.Accept? && id == s.nextId)
    ensures var t := Step(cfg, s, l).value;
      && (id in t.history <==> id in s.history)
      && (id in s.history ==> t.history[id] == s.history[id])
      && (id in t.heap ==> id in s.heap && t.heap[id] == s.heap[id])
  {
  }

  lemma NextIsNew(cfg: Config, s: State)
    requires Reachable(cfg, s) && !cfg.hangups
    ensures s.nextId !in s.history
  {
    ReachableInv(cfg, s);
  }

  /** A step that is no call for `id` leaves its life alone, or begins it. */
  lemma OtherLife(cfg: Config, s: State, l: Label, id: nat, envs: seq<Env>)
    requires s.nextId !in s.history && Step(cfg, s, l).Some? && !(l.Act? && s.running[l.i].stage.conn == id)
    requires Begun(cfg, s, id, envs)
    ensures Begun(cfg, Step(cfg, s, l).value, id, envs)
  {
    if !(l.Accept? && id == s.nextId) {
      Untouched(cfg, s, l, id);
    }
  }

  lemma OneMoreCall(cfg: Config, s: State, i: nat, env: Env, envs: seq<Env>)
    requires Reachable(cfg, s) && !cfg.hangups && Step(cfg, s, Act(i, env)).Some?
    requires LivedAs(cfg, s, s.running[i].stage.conn, envs)
    ensures LivedAs(cfg, Step(cfg, s, Act(i, env)).value, s.running[i].stage.conn, envs + [env])
  {
    var id := s.running[i].stage.conn;
    ReachableSafe(cfg, s);
    assert WorkerFits(cfg, s, s.running[i]);
    HandleFits(cfg.app, s.heap[id], s.history[id], env);
  }

  /** One step of the run, and the calls it adds. */
  lemma StepLives(cfg: Config, s: State, l: Label, id: nat, envs: seq<Env>)
    requires Reachable(cfg, s) && !cfg.hangups && Step(cfg, s, l).Some? && Begun(cfg, s, id, envs)
    ensures Begun(cfg, Step(cfg, s, l).value, id, envs + CallOf(s, l, id))
  {
    if l.Act? && s.running[l.i].stage.conn == id {
      OneMoreCall(cfg, s, l.i, l.env, envs);
    } else {
      NextIsNew(cfg, s);
      OtherLife(cfg, s, l, id, envs);
      assert envs + [] == envs;
    }
  }

  lemma {:induction false} RunLives(cfg: Config, s: State, labels: seq<Label>, id: nat, envs: seq<Env>)
    returns (t: State, all: seq<Env>)
    requires Reachable(cfg, s) && !cfg.hangups && Run(cfg, s, labels).Some? && Begun(cfg, s, id, envs)
    ensures Run(cfg, s, labels) == Some(t) && all == envs + Calls(cfg, s, labels, id)
    ensures Begun(cfg, t, id, all)
    decreases |labels|
  {
    if labels == [] {
      t, all := s, envs;
    } else {
      var next := Step(cfg, s, labels[0]).value;
      StepLives(cfg, s, labels[0], id, envs);
      ReachStep(cfg, s, labels[0], next);
      var call, rest := CallOf(s, labels[0], id), Calls(cfg, next, labels[1..], id);
      t, all := RunLives(cfg, next, labels[1..], id, envs + call);
      Assoc(envs, call, rest);
    }
  }

  // ---------------------------------------------------------------------------------
  // The theorems
  // ---------------------------------------------------------------------------------

  /** Whatever the other threads do in between, each connection is what its own calls made of
      it. */
  lemma EveryConnectionLived(cfg: Config, labels: seq<Label>, id: nat)
    requires !cfg.hangups && Run(cfg, INIT, labels).Some? && id in Run(cfg, INIT, labels).value.history
    ensures LivedAs(cfg, Run(cfg, INIT, labels).value, id, Calls(cfg, INIT, labels, id))
  {
    assert Run(cfg, INIT, []) == Some(INIT);
    var t, all := RunLives(cfg, INIT, labels, id, []);
    assert [] + Calls(cfg, INIT, labels, id) == Calls(cfg, INIT, labels, id);
  }

  const FRESH: MessageParser.Parser := MessageParser.FRESH_REQUEST

  /** The bytes start with a request, spelled out by the grammar, which is `request`. */
  ghost predicate Decodes(read: string, request: HttpRequest) {
    exists f, start: Start, headers ::
      start.RequestLine? && Spells(read, f, start, headers)
      && request == MessageParser.Request(MessageOf(f, start, headers))
  }

  ghost predicate Decodable(read: string) {
    exists f, start: Start, headers :: start.RequestLine? && Spells(read, f, start, headers)
  }

  /** After lines of the right shape comes one that has not the shape it needs. */
  ghost predicate Offending(read: string) {
    exists b :: Misspells(FRESH.start, read, b)
  }

  /** The parser and the grammar agree about what was read. */
  lemma ReadMeans(read: string)
    ensures var p := MessageParser.Feed(FRESH, read);
      && (p.phase == MessageParser.Error <==> Offending(read))
      && (p.phase == MessageParser.Complete <==> Decodable(read))
      && (p.phase == MessageParser.Complete ==> Decodes(read, MessageParser.Request(p)))
  {
    assert Fresh(FRESH.start) == FRESH;
    FailsExactly(FRESH.start, read);
    var p := MessageParser.Feed(FRESH, read);
    if p.phase == MessageParser.Complete {
      CompletesExactly(FRESH.start, read, p);
    }
    if Decodable(read) {
      var f, start: Start, headers :| start.RequestLine? && Spells(read, f, start, headers);
      CompletesExactly(FRESH.start, read, MessageOf(f, start, headers));
    }
  }

  /** A decoded request wants to be kept unless its headers ask to close. */
  lemma DecodedWish(read: string, request: HttpRequest)
    requires Decodes(read, request)
    ensures request.keepAlive <==> !WantsClose(request.headers, request.version == "HTTP/1.0")
  {
  }

  /** A request is served for the bytes that decode to it, and refused for those that have an
      offending line. */
  ghost predicate RightlyAnswered(r: Round) {
    && (r.answer.Refused? <==> Offending(r.read))
    && (r.answer.Served? <==> Decodable(r.read))
    && (r.answer.Served? ==> Decodes(r.read, r.answer.request))
  }

  /** Requests and answers, in every run, across read boundaries, keep-alive and partial
      writes: the answers that connection `id` gave are, in order, those that the bytes read
      since the answer before call for, each response is one to that request, and while the
      connection can be read on, the bytes read since the last answer call for none. */
  lemma AnswersMatchTheBytes(cfg: Config, labels: seq<Label>, id: nat)
    requires !cfg.hangups && Run(cfg, INIT, labels).Some? && id in Run(cfg, INIT, labels).value.history
    ensures var s := Run(cfg, INIT, labels).value;
      var life := Lived(cfg.app, Calls(cfg, INIT, labels, id));
      && RoundAnswers(life.rounds) == AnswersIn(s.history[id])
      && (forall k :: 0 <= k < |life.rounds| ==> RightlyAnswered(life.rounds[k]))
      && AllAnswered(cfg.app, life)
      && (id in s.heap && !HasPending(s.heap[id].outbox) && Unfinished(s.heap[id].parser.phase) ==>
            !Offending(life.unanswered) && !Decodable(life.unanswered))
  {
    EveryConnectionLived(cfg, labels, id);
    var envs := Calls(cfg, INIT, labels, id);
    var life := Lived(cfg.app, envs);
    WelcomeLife(cfg.app, envs);
    RoundsAreHistory(cfg.app, envs);
    forall k | 0 <= k < |life.rounds|
      ensures RightlyAnswered(life.rounds[k])
    {
      assert Answers(cfg.app, life.rounds[k], life.responses[k]);
      ReadMeans(life.rounds[k].read);
    }
    ReadMeans(life.unanswered);
  }

  /** The client's byte stream in every run: what was sent, what was dropped and what is
      pending are together the responses to those requests, in order. */
  lemma EveryClientReadsItsResponses(cfg: Config, labels: seq<Label>, id: nat)
    requires !cfg.hangups && Run(cfg, INIT, labels).Some? && id in Run(cfg, INIT, labels).value.history
    ensures var s := Run(cfg, INIT, labels).value;
      var envs := Calls(cfg, INIT, labels, id);
      var life := Lived(cfg.app, envs);
      var l := ApplyAll(Ledger(EMPTY, []), life.ops);
      && (id in s.heap ==> s.heap[id].outbox == l.box)
      && Gone(l.pieces) + Pending(l.box) == Flatten(life.responses)
      && (NoSendFails(envs) ==> Received(l.pieces) + Pending(l.box) == Flatten(life.responses))
  {
    EveryConnectionLived(cfg, labels, id);
    LifeIsItsOps(cfg.app, Calls(cfg, INIT, labels, id));
    ClientReadsResponsesInOrder(cfg.app, Calls(cfg, INIT, labels, id));
  }

  // ---------------------------------------------------------------------------------
  // Call by call
  // ---------------------------------------------------------------------------------

  /** What the calls before number `i` made of the connection. */
  lemma {:induction false} CallAt(app: App, envs: seq<Env>, i: nat)
    requires Welcome(app, envs) && i < |envs|
    ensures |Lived(app, envs).history| == |envs|
    ensures var before := Lived(app, envs[..i]);
      && Attentive(before) && MayContinue(before.conn)
      && Lived(app, envs).history[i] == Handle(app, before.conn, envs[i]).entry
    decreases |envs|
  {
    var front := envs[..|envs| - 1];
    HistoryGrows(app, envs);
    HistoryLength(app, front);
    if i == |envs| - 1 {
      WelcomeLife(app, front);
    } else {
      CallAt(app, front, i);
      assert front[..i] == envs[..i] && front[i] == envs[i];
    }
  }

  lemma HistoryGrows(app: App, envs: seq<Env>)
    requires envs != []
    ensures var front, last := envs[..|envs| - 1], envs[|envs| - 1];
      Lived(app, envs).history == Lived(app, front).history + [Handle(app, Lived(app, front).conn, last).entry]
  {
  }

  lemma {:induction false} HistoryLength(app: App, envs: seq<Env>)
    ensures |Lived(app, envs).history| == |envs|
    decreases |envs|
  {
    if envs != [] {
      HistoryLength(app, envs[..|envs| - 1]);
    }
  }

  /** Every call of every run does what its table says: nothing else is ever answered or
      posted than the environment's answers and the bytes read since the last response
      call for. */
  lemma EveryCallIsRight(cfg: Config, labels: seq<Label>, id: nat, i: nat)
    requires !cfg.hangups && Run(cfg, INIT, labels).Some? && id in Run(cfg, INIT, labels).value.history
    requires i < |Run(cfg, INIT, labels).value.history[id]|
    ensures var envs := Calls(cfg, INIT, labels, id);
      && |envs| == |Run(cfg, INIT, labels).value.history[id]|
      && var before := Lived(cfg.app, envs[..i]);
         RightEntry(cfg.app, before.conn, before.unanswered + ReadBy(before.conn, envs[i]), envs[i],
                    Run(cfg, INIT, labels).value.history[id][i])
  {
    EveryConnectionLived(cfg, labels, id);
    var envs := Calls(cfg, INIT, labels, id);
    HistoryLength(cfg.app, envs);
    CallAt(cfg.app, envs, i);
    var before := Lived(cfg.app, envs[..i]);
    CallExactly(cfg.app, before.conn, before.unanswered, envs[i]);
  }

  /** Reading, in every run: a call with nothing to write closes without an answer exactly at
      the end of the stream; before that it refuses exactly the bytes with an offending line,
      serves exactly the bytes that are a request, and otherwise waits for more. */
  lemma ReadingIsRight(cfg: Config, labels: seq<Label>, id: nat, i: nat)
    requires !cfg.hangups && Run(cfg, INIT, labels).Some? && id in Run(cfg, INIT, labels).value.history
    requires i < |Run(cfg, INIT, labels).value.history[id]|
    ensures var envs := Calls(cfg, INIT, labels, id);
      var e := Run(cfg, INIT, labels).value.history[id][i];
      && |envs| == |Run(cfg, INIT, labels).value.history[id]|
      && var before := Lived(cfg.app, envs[..i]);
         var read := before.unanswered + ReadBy(before.conn, envs[i]);
         !HasPending(before.conn.outbox) ==>
           && (e == Entry(None, Close) <==> EndOfStream(envs[i].recv))
           && (e == Entry(None, WaitReadable) <==> !EndOfStream(envs[i].recv) && !Decodable(read) && !Offending(read))
           && (e.answer == Some(Refused) <==> !EndOfStream(envs[i].recv) && Offending(read))
           && (e.answer.Some? && e.answer.value.Served? <==> !EndOfStream(envs[i].recv) && Decodable(read))
  {
    EveryCallIsRight(cfg, labels, id, i);
    var envs := Calls(cfg, INIT, labels, id);
    var before := Lived(cfg.app, envs[..i]);
    ReadMeans(before.unanswered + ReadBy(before.conn, envs[i]));
  }

  /** The flag that goes with a served request, in every run: the client's own wish, read off
      its headers, if there was anyone to ask, and off otherwise. */
  lemma FlagIsTheClientsWish(cfg: Config, labels: seq<Label>, id: nat, i: nat)
    requires !cfg.hangups && Run(cfg, INIT, labels).Some? && id in Run(cfg, INIT, labels).value.history
    requires i < |Run(cfg, INIT, labels).value.history[id]|
    requires var a := Run(cfg, INIT, labels).value.history[id][i].answer; a.Some? && a.value.Served?
    ensures var a := Run(cfg, INIT, labels).value.history[id][i].answer.value;
      var envs := Calls(cfg, INIT, labels, id);
      && i < |envs|
      && (a.request.keepAlive <==> !WantsClose(a.request.headers, a.request.version == "HTTP/1.0"))
      && (a.keepAlive <==> a.request.keepAlive && (cfg.app == HttpServer || envs[i].upstream.Exchange?))
  {
    EveryCallIsRight(cfg, labels, id, i);
    var envs := Calls(cfg, INIT, labels, id);
    var before := Lived(cfg.app, envs[..i]);
    var read := before.unanswered + ReadBy(before.conn, envs[i]);
    ReadMeans(read);
    DecodedWish(read, Run(cfg, INIT, labels).value.history[id][i].answer.value.request);
  }

  /** The load balancer's promise to the client, in every run: once a response has been written
      out, at once or over any number of calls, it closes exactly when the client's headers ask
      to close or no exchange with an upstream was begun. */
  lemma LoadBalancerClosesExactly(cfg: Config, labels: seq<Label>, id: nat, i: nat, j: nat)
    requires !cfg.hangups && cfg.app == LoadBalancer
    requires Run(cfg, INIT, labels).Some? && id in Run(cfg, INIT, labels).value.history
    requires var h := Run(cfg, INIT, labels).value.history[id];
      && i <= j < |h| && h[i].answer.Some? && h[i].answer.value.Served?
      && (forall k :: i <= k < j ==> h[k].action == WaitWritable) && h[j].action != WaitWritable
    ensures var h := Run(cfg, INIT, labels).value.history[id];
      var request := h[i].answer.value.request;
      var envs := Calls(cfg, INIT, labels, id);
      && i < |envs|
      && (h[j].action == Close <==>
            WantsClose(request.headers, request.version == "HTTP/1.0") || !envs[i].upstream.Exchange?)
  {
    FlagIsTheClientsWish(cfg, labels, id, i);
    assert Reachable(cfg, Run(cfg, INIT, labels).value);
    LoadBalancerKeepsItsWord(cfg, Run(cfg, INIT, labels).value, id, i, j);
  }
}
