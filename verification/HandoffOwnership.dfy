/** Ownership: in every reachable state each live connection has exactly one token.

    A token is a place in which a connection can be: armed in the event loop, queued as a
    task, with a worker, in the list of pending re-arms, in the batch that the reactor has
    swapped out, or in the reactor's hand between two of its steps.  Every step takes a token
    from one place and puts it in another, creates one together with its connection, or
    destroys one together with its connection, so the bag of all tokens stays equal to the
    set of all live connections.  That a descriptor is served once, that it is not armed
    meanwhile, and that whatever names it names the right connection all follow from this. */
module HandoffOwnership {
  import opened Text
  import opened Seqs
  import opened Workers
  import opened Handoff

  /** The pairs of a table. */
  function Pairs(table: map<nat, nat>): set<Tok> {
    set fd | fd in table :: Tok(fd, table[fd])
  }

  function ArmedIds(armed: map<nat, Armed>): map<nat, nat> {
    map fd | fd in armed :: armed[fd].id
  }

  function WorkerToks(running: seq<Worker>): (toks: seq<Tok>)
    ensures |toks| == |running|
  {
    seq(|running|, i requires 0 <= i < |running| => running[i].tok)
  }

  function RearmToks(rearms: seq<Rearm>): (toks: seq<Tok>)
    ensures |toks| == |rearms|
  {
    seq(|rearms|, i requires 0 <= i < |rearms| => rearms[i].tok)
  }

  function Hand(pc: Pc): multiset<Tok> {
    if pc.Adding? || pc.Enqueuing? || pc.Erasing? then multiset{pc.tok} else multiset{}
  }

  /** All tokens with their multiplicity: armed, queued, with a worker, in the pending list,
      in the swapped batch, or in the reactor's hand. */
  function Tokens(s: State): multiset<Tok> {
    multiset(Pairs(ArmedIds(s.armed))) + multiset(s.queue) + multiset(WorkerToks(s.running))
    + multiset(RearmToks(s.pending)) + multiset(RearmToks(s.batch)) + Hand(s.pc)
  }

  /** Exactly one token for every live connection, of its own identity, and no other token. */
  ghost predicate Owned(s: State) {
    Tokens(s) == multiset(Pairs(s.connections))
  }

  /** Some descriptor stands for connection `id`. */
  ghost predicate Listed(table: map<nat, nat>, id: nat) {
    exists fd :: fd in table && table[fd] == id
  }

  ghost predicate Injective(table: map<nat, nat>) {
    forall fd, fd' :: fd in table && fd' in table && table[fd] == table[fd'] ==> fd == fd'
  }

  /** A table and a heap that describe the same connections, with distinct fresh identities. */
  ghost predicate TableOk(table: map<nat, nat>, heap: set<nat>, history: set<nat>, nextId: nat) {
    && (forall fd :: fd in table ==> table[fd] < nextId && table[fd] in heap)
    && Injective(table)
    && (forall id :: id in heap ==> Listed(table, id))
    && (forall id :: id in history <==> 0 <= id < nextId)
  }

  /** Table and heap agree, and the kernel has every connection's descriptor open. */
  ghost predicate TableAgrees(s: State) {
    && TableOk(s.connections, s.heap.Keys, s.history.Keys, s.nextId)
    && forall fd :: fd in s.connections ==> fd in s.open
  }

  /** The unprocessed events are about armed descriptors, one each, and each part of the loop
      runs only with the data of its phase. */
  ghost predicate LoopAgrees(cfg: Config, s: State) {
    && cfg.listenFd !in s.connections
    && OneEventPerFd(s.events)
    && (forall ev :: ev in s.events ==> ev.fd == cfg.listenFd || ev.fd in s.armed)
    && (s.batch != [] ==> s.pc == Applying || (s.pc.Erasing? && s.pc.applying))
    && (s.events != [] ==> s.pc != Top && s.pc != Applying && !(s.pc.Erasing? && s.pc.applying))
  }

  /** A pointer in a worker's hands is the connection its task was made for. */
  ghost predicate PointersAgree(s: State) {
    forall i :: 0 <= i < |s.running| && s.running[i].stage.Holding? ==> s.running[i].stage.conn == s.running[i].tok.id
  }

  /** Everything but the count of the tokens. */
  ghost predicate Tidy(cfg: Config, s: State) {
    TableAgrees(s) && LoopAgrees(cfg, s) && PointersAgree(s)
  }

  ghost predicate Inv(cfg: Config, s: State) {
    Owned(s) && Tidy(cfg, s)
  }

  // ---------------------------------------------------------------------------------
  // Moving tokens
  // ---------------------------------------------------------------------------------

  lemma FirstBag<T>(xs: seq<T>)
    requires xs != []
    ensures multiset(xs) == multiset(xs[1..]) + multiset{xs[0]}
  {
    assert xs == [xs[0]] + xs[1..];
  }

  lemma RearmFirst(rearms: seq<Rearm>)
    requires rearms != []
    ensures multiset(RearmToks(rearms)) == multiset(RearmToks(rearms[1..])) + multiset{rearms[0].tok}
  {
    FirstBag(RearmToks(rearms));
    assert RearmToks(rearms)[1..] == RearmToks(rearms[1..]);
  }

  lemma WorkerRemove(running: seq<Worker>, i: nat)
    requires i < |running|
    ensures multiset(WorkerToks(running)) == multiset(WorkerToks(Remove(running, i))) + multiset{running[i].tok}
  {
    RemoveBag(WorkerToks(running), i);
    assert WorkerToks(Remove(running, i)) == Remove(WorkerToks(running), i);
  }

  lemma WorkerSnoc(running: seq<Worker>, w: Worker)
    ensures multiset(WorkerToks(running + [w])) == multiset(WorkerToks(running)) + multiset{w.tok}
  {
    assert WorkerToks(running + [w]) == WorkerToks(running) + [w.tok];
  }

  lemma WorkerUpdate(running: seq<Worker>, i: nat, w: Worker)
    requires i < |running| && w.tok == running[i].tok
    ensures WorkerToks(running[i := w]) == WorkerToks(running)
  {
  }

  lemma RearmSnoc(rearms: seq<Rearm>, r: Rearm)
    ensures multiset(RearmToks(rearms + [r])) == multiset(RearmToks(rearms)) + multiset{r.tok}
  {
    assert RearmToks(rearms + [r]) == RearmToks(rearms) + [r.tok];
  }

  lemma ArmedMember(armed: map<nat, Armed>, fd: nat)
    requires fd in armed
    ensures Tok(fd, armed[fd].id) in Pairs(ArmedIds(armed))
  {
    assert fd in ArmedIds(armed) && ArmedIds(armed)[fd] == armed[fd].id;
  }

  lemma PairsInsert(table: map<nat, nat>, fd: nat, id: nat)
    requires fd !in table
    ensures multiset(Pairs(table[fd := id])) == multiset(Pairs(table)) + multiset{Tok(fd, id)}
  {
    var more := table[fd := id];
    forall t: Tok
      ensures t in Pairs(more) <==> t in Pairs(table) || t == Tok(fd, id)
    {
      assert t in Pairs(more) <==> t.fd in more && more[t.fd] == t.id;
      assert t in Pairs(table) <==> t.fd in table && table[t.fd] == t.id;
    }
    assert Pairs(more) == Pairs(table) + {Tok(fd, id)};
    assert Tok(fd, id) !in Pairs(table);
  }

  lemma PairsRemove(table: map<nat, nat>, fd: nat)
    requires fd in table
    ensures multiset(Pairs(table)) == multiset(Pairs(table - {fd})) + multiset{Tok(fd, table[fd])}
  {
    var less := table - {fd};
    PairsInsert(less, fd, table[fd]);
    assert less[fd := table[fd]] == table;
  }

  lemma Arm(armed: map<nat, Armed>, fd: nat, a: Armed)
    requires fd !in armed
    ensures multiset(Pairs(ArmedIds(armed[fd := a]))) == multiset(Pairs(ArmedIds(armed))) + multiset{Tok(fd, a.id)}
  {
    PairsInsert(ArmedIds(armed), fd, a.id);
    assert ArmedIds(armed[fd := a]) == ArmedIds(armed)[fd := a.id];
  }

  lemma Disarm(armed: map<nat, Armed>, fd: nat)
    requires fd in armed
    ensures multiset(Pairs(ArmedIds(armed)))
         == multiset(Pairs(ArmedIds(armed - {fd}))) + multiset{Tok(fd, armed[fd].id)}
  {
    PairsRemove(ArmedIds(armed), fd);
    assert ArmedIds(armed - {fd}) == ArmedIds(armed) - {fd};
  }

  /** A token is live, names its connection, and is alone: what is left holds no other token
      of that descriptor, armed or otherwise. */
  lemma TokenIsLive(s: State, t: Tok, others: multiset<Tok>)
    requires Owned(s) && Tokens(s) == others + multiset{t}
    ensures t.fd in s.connections && s.connections[t.fd] == t.id
    ensures forall u :: u in others ==> u.fd in s.connections && s.connections[u.fd] == u.id && u.fd != t.fd
  {
    var live := Pairs(s.connections);
    assert t in Tokens(s);
    forall u | u in others
      ensures u.fd in s.connections && s.connections[u.fd] == u.id && u.fd != t.fd
    {
      assert u in Tokens(s) && u in live;
      assert Tokens(s)[u] == others[u] + (if u == t then 1 else 0);
      assert multiset(live)[u] <= 1;
    }
  }

  lemma ArmedIsLive(s: State, fd: nat)
    requires Owned(s) && fd in s.armed
    ensures fd in s.connections && s.connections[fd] == s.armed[fd].id
  {
    ArmedMember(s.armed, fd);
    assert Tok(fd, s.armed[fd].id) in Tokens(s);
  }

  /** While another token of a descriptor exists, the descriptor is not armed. */
  lemma NotArmedBeside(s: State, t: Tok, rest: State)
    requires Owned(s) && Tokens(s) == Tokens(rest) + multiset{t} && rest.armed == s.armed
    ensures t.fd !in s.armed
  {
    TokenIsLive(s, t, Tokens(rest));
    forall fd | fd in s.armed
      ensures fd != t.fd
    {
      ArmedMember(s.armed, fd);
      assert Tok(fd, s.armed[fd].id) in Tokens(rest);
    }
  }

  // ---------------------------------------------------------------------------------
  // Reactor steps keep the invariant
  // ---------------------------------------------------------------------------------

  /** The descriptor of a re-arm still belongs to the connection it was posted for, and is
      not armed. */
  lemma RearmTarget(s: State)
    requires Owned(s) && s.batch != []
    ensures var t := s.batch[0].tok; t.fd in s.connections && s.connections[t.fd] == t.id && t.fd !in s.armed
    ensures Tokens(s) == Tokens(s.(batch := s.batch[1..])) + multiset{s.batch[0].tok}
  {
    RearmFirst(s.batch);
    var rest := s.(batch := s.batch[1..]);
    TokenIsLive(s, s.batch[0].tok, Tokens(rest));
    NotArmedBeside(s, s.batch[0].tok, rest);
  }

  lemma ApplyArmOwned(s: State, t: State, r: Rearm)
    requires Owned(s) && s.batch != [] && r == s.batch[0]
    requires t == s.(batch := s.batch[1..], armed := s.armed[r.tok.fd := Armed(r.tok.id, r.action)])
    ensures Owned(t)
  {
    RearmTarget(s);
    Arm(s.armed, r.tok.fd, Armed(r.tok.id, r.action));
    assert Tokens(t) == Tokens(s);
  }

  lemma ApplyCloseOwned(s: State, t: State)
    requires Owned(s) && s.batch != [] && Hand(s.pc) == multiset{}
    requires t == s.(batch := s.batch[1..], pc := Erasing(s.batch[0].tok, true))
    ensures Owned(t)
  {
    RearmTarget(s);
    assert Tokens(t) == Tokens(s);
  }

  lemma ApplyOwned(s: State, t: State)
    requires Owned(s) && s.pc == Applying && s.batch != []
    requires t == ApplyRearm(s.(batch := s.batch[1..]), s.batch[0])
    ensures Owned(t)
  {
    RearmTarget(s);
    var r := s.batch[0];
    if r.action == Close {
      assert s.armed - {r.tok.fd} == s.armed;
      ApplyCloseOwned(s, t);
    } else {
      ApplyArmOwned(s, t, r);
    }
  }

  /** What applying a re-arm changes. */
  lemma ApplyShape(s: State, r: Rearm)
    requires s.pc == Applying
    ensures var t := ApplyRearm(s, r);
      && t == s.(armed := t.armed, pc := t.pc)
      && (t.pc == Applying || (t.pc.Erasing? && t.pc.applying))
  {
  }

  lemma DispatchOwned(cfg: Config, s: State, ev: Event, t: State)
    requires Owned(s) && s.pc == Dispatching && (ev.fd == cfg.listenFd || ev.fd in s.armed)
    requires t == DispatchEvent(cfg, s, ev)
    ensures Owned(t)
  {
    if ev.fd != cfg.listenFd {
      ArmedIsLive(s, ev.fd);
      Disarm(s.armed, ev.fd);
      assert Tokens(t) == Tokens(s);
    }
  }

  lemma DispatchTidy(cfg: Config, s: State, t: State)
    requires Tidy(cfg, s) && s.pc == Dispatching && s.events != []
    requires t == s.(events := s.events[1..], armed := t.armed, pc := t.pc)
    requires t.armed == s.armed || t.armed == s.armed - {s.events[0].fd}
    requires t.pc in {Dispatching, Accepting} || t.pc.Enqueuing? || (t.pc.Erasing? && !t.pc.applying)
    ensures Tidy(cfg, t)
  {
    assert TableAgrees(t) && PointersAgree(t);
  }

  lemma AcceptOwned(s: State, t: State, fd: nat)
    requires Owned(s) && s.pc == Accepting && fd !in s.connections
    requires t == s.(connections := t.connections, heap := t.heap, history := t.history, nextId := t.nextId,
                     open := t.open, pc := Adding(Tok(fd, s.nextId)))
    requires t.connections == s.connections[fd := s.nextId]
    ensures Owned(t)
  {
    PairsInsert(s.connections, fd, s.nextId);
    assert Tokens(t) == Tokens(s) + multiset{Tok(fd, s.nextId)};
  }

  lemma ListedMore(table: map<nat, nat>, fd: nat, id: nat, other: nat)
    requires fd !in table
    ensures Listed(table, other) || other == id ==> Listed(table[fd := id], other)
  {
    var more := table[fd := id];
    assert more[fd] == id;
    if Listed(table, other) {
      var f :| f in table && table[f] == other;
      assert more[f] == other;
    }
  }

  lemma TableInsert(table: map<nat, nat>, heap: set<nat>, history: set<nat>, nextId: nat, fd: nat)
    requires TableOk(table, heap, history, nextId) && fd !in table
    ensures TableOk(table[fd := nextId], heap + {nextId}, history + {nextId}, nextId + 1)
  {
    forall id | id in heap + {nextId}
      ensures Listed(table[fd := nextId], id)
    {
      ListedMore(table, fd, nextId, id);
    }
  }

  lemma TableRemove(table: map<nat, nat>, heap: set<nat>, history: set<nat>, nextId: nat, fd: nat)
    requires TableOk(table, heap, history, nextId) && fd in table
    ensures TableOk(table - {fd}, heap - {table[fd]}, history, nextId)
  {
    var less := table - {fd};
    forall id | id in heap - {table[fd]}
      ensures Listed(less, id)
    {
      var f :| f in table && table[f] == id;
      assert f in less;
    }
  }

  lemma AcceptTable(s: State, t: State, fd: nat)
    requires TableAgrees(s) && fd !in s.connections
    requires t.connections == s.connections[fd := s.nextId] && t.heap == s.heap[s.nextId := NEW_CONN]
    requires t.history == s.history[s.nextId := []] && t.nextId == s.nextId + 1 && t.open == s.open + {fd}
    ensures TableAgrees(t)
  {
    TableInsert(s.connections, s.heap.Keys, s.history.Keys, s.nextId, fd);
    assert t.heap.Keys == s.heap.Keys + {s.nextId} && t.history.Keys == s.history.Keys + {s.nextId};
  }

  lemma AcceptTidy(cfg: Config, s: State, fd: nat)
    requires Tidy(cfg, s) && ReactorStep(cfg, s, Accept(fd)).Some?
    ensures Tidy(cfg, ReactorStep(cfg, s, Accept(fd)).value)
  {
    AcceptTable(s, ReactorStep(cfg, s, Accept(fd)).value, fd);
  }

  lemma AddOwned(s: State, t: State)
    requires Owned(s) && s.pc.Adding?
    requires t == s.(armed := s.armed[s.pc.tok.fd := Armed(s.pc.tok.id, WaitReadable)], pc := Accepting)
    ensures Owned(t)
  {
    var tok := s.pc.tok;
    NotArmedBeside(s, tok, s.(pc := Accepting));
    Arm(s.armed, tok.fd, Armed(tok.id, WaitReadable));
    assert Tokens(t) == Tokens(s);
  }

  /** A connection in the reactor's hand is a token of its own. */
  lemma HandToken(s: State, rest: State)
    requires s.pc.Erasing? && rest == s.(pc := rest.pc) && Hand(rest.pc) == multiset{}
    ensures Tokens(s) == Tokens(rest) + multiset{s.pc.tok}
  {
  }

  lemma EraseOwned(s: State, t: State)
    requires Owned(s) && s.pc.Erasing?
    requires t == s.(connections := s.connections - {s.pc.tok.fd}, heap := t.heap, open := t.open, pc := t.pc)
    requires Hand(t.pc) == multiset{}
    ensures Owned(t)
    ensures s.pc.tok.fd in s.connections && s.connections[s.pc.tok.fd] == s.pc.tok.id && s.pc.tok.fd !in s.armed
  {
    var tok := s.pc.tok;
    var rest := s.(pc := Applying);
    assert Tokens(t) == Tokens(rest);
    TokenIsLive(s, tok, Tokens(rest));
    NotArmedBeside(s, tok, rest);
    PairsRemove(s.connections, tok.fd);
    Cancel(Tokens(t), multiset(Pairs(t.connections)), tok);
  }

  lemma EraseTidy(cfg: Config, s: State, tok: Tok)
    requires Tidy(cfg, s) && s.pc.Erasing? && s.pc.tok == tok
    requires tok.fd in s.connections && s.connections[tok.fd] == tok.id && tok.fd !in s.armed
    ensures Tidy(cfg, ReactorStep(cfg, s, Erase).value)
  {
    var t := ReactorStep(cfg, s, Erase).value;
    TableRemove(s.connections, s.heap.Keys, s.history.Keys, s.nextId, tok.fd);
    assert t.heap.Keys == s.heap.Keys - {tok.id};
  }

  lemma SwapKeeps(cfg: Config, s: State)
    requires Inv(cfg, s) && ReactorStep(cfg, s, Swap).Some?
    ensures Inv(cfg, ReactorStep(cfg, s, Swap).value)
  {
    assert s.batch == [];
    assert Tidy(cfg, ReactorStep(cfg, s, Swap).value);
  }

  lemma WaitKeeps(cfg: Config, s: State, events: seq<Event>)
    requires Inv(cfg, s) && !cfg.hangups && ReactorStep(cfg, s, Wait(events)).Some?
    ensures Inv(cfg, ReactorStep(cfg, s, Wait(events)).value)
  {
    assert Tidy(cfg, ReactorStep(cfg, s, Wait(events)).value);
  }

  /** Steps that only move the reactor along its loop. */
  lemma MoveOnKeeps(cfg: Config, s: State, l: Label)
    requires Inv(cfg, s) && (l.Loop? || l.AcceptDone?) && ReactorStep(cfg, s, l).Some?
    ensures Inv(cfg, ReactorStep(cfg, s, l).value)
  {
    assert Tidy(cfg, ReactorStep(cfg, s, l).value);
  }

  lemma ApplyKeeps(cfg: Config, s: State)
    requires Inv(cfg, s) && ReactorStep(cfg, s, ApplyNext).Some?
    ensures Inv(cfg, ReactorStep(cfg, s, ApplyNext).value)
  {
    var t := ReactorStep(cfg, s, ApplyNext).value;
    assert Owned(t) by {
      ApplyOwned(s, t);
    }
    assert Tidy(cfg, t) by {
      ApplyShape(s.(batch := s.batch[1..]), s.batch[0]);
    }
  }

  lemma DispatchKeeps(cfg: Config, s: State)
    requires Inv(cfg, s) && ReactorStep(cfg, s, DispatchNext).Some?
    ensures Inv(cfg, ReactorStep(cfg, s, DispatchNext).value)
  {
    var t := ReactorStep(cfg, s, DispatchNext).value;
    var ev, rest := s.events[0], s.(events := s.events[1..]);
    assert ev in s.events;
    DispatchOwned(cfg, rest, ev, t);
    DispatchTidy(cfg, s, t);
  }

  lemma AddKeeps(cfg: Config, s: State)
    requires Inv(cfg, s) && ReactorStep(cfg, s, Add).Some?
    ensures Inv(cfg, ReactorStep(cfg, s, Add).value)
  {
    var t := ReactorStep(cfg, s, Add).value;
    AddOwned(s, t);
    assert Tidy(cfg, t);
  }

  lemma EnqueueKeeps(cfg: Config, s: State)
    requires Inv(cfg, s) && ReactorStep(cfg, s, Enqueue).Some?
    ensures Inv(cfg, ReactorStep(cfg, s, Enqueue).value)
  {
    var t := ReactorStep(cfg, s, Enqueue).value;
    assert Tidy(cfg, t);
  }

  lemma ReactorKeeps(cfg: Config, s: State, l: Label)
    requires Inv(cfg, s) && !cfg.hangups && ReactorStep(cfg, s, l).Some?
    ensures Inv(cfg, ReactorStep(cfg, s, l).value)
  {
    match l
    case Swap => SwapKeeps(cfg, s);
    case ApplyNext => ApplyKeeps(cfg, s);
    case Wait(events) => WaitKeeps(cfg, s, events);
    case Loop => MoveOnKeeps(cfg, s, l);
    case DispatchNext => DispatchKeeps(cfg, s);
    case Accept(fd) =>
      AcceptOwned(s, ReactorStep(cfg, s, l).value, fd);
      AcceptTidy(cfg, s, fd);
    case Add => AddKeeps(cfg, s);
    case AcceptDone => MoveOnKeeps(cfg, s, l);
    case Enqueue => EnqueueKeeps(cfg, s);
    case Erase =>
      EraseOwned(s, ReactorStep(cfg, s, l).value);
      EraseTidy(cfg, s, s.pc.tok);
  }

  // ---------------------------------------------------------------------------------
  // Worker steps keep the invariant
  // ---------------------------------------------------------------------------------

  lemma TakeOwned(s: State, t: State)
    requires Owned(s) && s.queue != []
    requires t == s.(queue := s.queue[1..], running := s.running + [Worker(s.queue[0], Dequeued)])
    ensures Owned(t)
  {
    FirstBag(s.queue);
    WorkerSnoc(s.running, Worker(s.queue[0], Dequeued));
    assert Tokens(t) == Tokens(s);
  }

  /** A worker's task belongs to a live connection, and to no other worker or place. */
  lemma WorkerIsLive(s: State, i: nat)
    requires Owned(s) && i < |s.running|
    ensures var t := s.running[i].tok; t.fd in s.connections && s.connections[t.fd] == t.id
    ensures Tokens(s) == Tokens(s.(running := Remove(s.running, i))) + multiset{s.running[i].tok}
  {
    WorkerRemove(s.running, i);
    TokenIsLive(s, s.running[i].tok, Tokens(s.(running := Remove(s.running, i))));
  }

  lemma PostOwned(s: State, t: State, i: nat, action: Action)
    requires Owned(s) && i < |s.running|
    requires t == s.(pending := s.pending + [Rearm(s.running[i].tok, action)], running := Remove(s.running, i))
    ensures Owned(t)
  {
    WorkerIsLive(s, i);
    RearmSnoc(s.pending, Rearm(s.running[i].tok, action));
    assert Tokens(t) == Tokens(s);
  }

  lemma RestageOwned(s: State, t: State, i: nat, w: Worker)
    requires Owned(s) && i < |s.running| && w.tok == s.running[i].tok
    requires t == s.(running := s.running[i := w], heap := t.heap, history := t.history)
    ensures Owned(t)
  {
    WorkerUpdate(s.running, i, w);
    assert Tokens(t) == Tokens(s);
  }

  lemma TakeKeeps(cfg: Config, s: State)
    requires Inv(cfg, s) && WorkerStep(cfg, s, Take).Some?
    ensures Inv(cfg, WorkerStep(cfg, s, Take).value)
  {
    var t := WorkerStep(cfg, s, Take).value;
    TakeOwned(s, t);
    assert Tidy(cfg, t);
  }

  lemma LookupKeeps(cfg: Config, s: State, i: nat)
    requires Inv(cfg, s) && WorkerStep(cfg, s, Lookup(i)).Some?
    ensures Inv(cfg, WorkerStep(cfg, s, Lookup(i)).value)
  {
    var t := WorkerStep(cfg, s, Lookup(i)).value;
    WorkerIsLive(s, i);
    RestageOwned(s, t, i, s.running[i].(stage := Holding(s.connections[s.running[i].tok.fd])));
    assert Tidy(cfg, t);
  }

  lemma ActKeeps(cfg: Config, s: State, i: nat, env: Env)
    requires Inv(cfg, s) && Step(cfg, s, Act(i, env)).Some?
    ensures Inv(cfg, Step(cfg, s, Act(i, env)).value)
  {
    var t := Step(cfg, s, Act(i, env)).value;
    RestageOwned(s, t, i, t.running[i]);
  }

  lemma WorkerKeeps(cfg: Config, s: State, l: Label)
    requires Inv(cfg, s) && IsWorkerLabel(l) && Step(cfg, s, l).Some?
    ensures Inv(cfg, Step(cfg, s, l).value)
  {
    match l
    case Take => TakeKeeps(cfg, s);
    case Lookup(i) => LookupKeeps(cfg, s, i);
    case Act(i, env) => ActKeeps(cfg, s, i, env);
    case Post(i) =>
      PostOwned(s, Step(cfg, s, l).value, i, s.running[i].stage.action);
  }

  lemma OpenTidy(cfg: Config, s: State, t: State)
    requires Tidy(cfg, s) && t == s.(open := t.open) && forall fd :: fd in s.connections ==> fd in t.open
    ensures Tidy(cfg, t)
  {
    assert LoopAgrees(cfg, t) && PointersAgree(t);
  }

  /** Other sockets disturb nobody. */
  lemma OtherKeeps(cfg: Config, s: State, l: Label)
    requires Inv(cfg, s) && OtherStep(cfg, s, l).Some?
    ensures Inv(cfg, OtherStep(cfg, s, l).value)
  {
    var t := OtherStep(cfg, s, l).value;
    assert Tokens(t) == Tokens(s);
    OpenTidy(cfg, s, t);
  }

  /** Every step of every thread keeps ownership, provided the event loop reports only armed
      descriptors. */
  lemma StepKeeps(cfg: Config, s: State, l: Label)
    requires Inv(cfg, s) && !cfg.hangups && Step(cfg, s, l).Some?
    ensures Inv(cfg, Step(cfg, s, l).value)
  {
    if IsWorkerLabel(l) {
      WorkerKeeps(cfg, s, l);
    } else if IsOtherLabel(l) {
      OtherKeeps(cfg, s, l);
    } else {
      ReactorKeeps(cfg, s, l);
    }
  }

  lemma {:induction false} RunKeeps(cfg: Config, s: State, labels: seq<Label>)
    requires Inv(cfg, s) && !cfg.hangups && Run(cfg, s, labels).Some?
    ensures Inv(cfg, Run(cfg, s, labels).value)
    decreases |labels|
  {
    if labels != [] {
      StepKeeps(cfg, s, labels[0]);
      RunKeeps(cfg, Step(cfg, s, labels[0]).value, labels[1..]);
    }
  }

  /** The invariant holds in every state that any interleaving reaches. */
  lemma ReachableInv(cfg: Config, s: State)
    requires Reachable(cfg, s) && !cfg.hangups
    ensures Inv(cfg, s)
  {
    var labels :| Run(cfg, INIT, labels) == Some(s);
    assert Inv(cfg, INIT) by {
      assert Pairs(map[]) == {} && ArmedIds(map[]) == map[];
      assert WorkerToks([]) == [] && RearmToks([]) == [];
    }
    RunKeeps(cfg, INIT, labels);
  }
}
