/** What ownership buys: exclusive access, no dangling pointers, agreement between what a
    descriptor waits for and the state of its connection, and well-behaved histories, in
    every state that any interleaving reaches. */
module HandoffSafety {
  import opened Text
  import opened Seqs
  import opened Workers
  import opened WriteBuffers
  import opened Handoff
  import opened HandoffOwnership

  predicate FitsId(cfg: Config, s: State, id: nat, action: Action) {
    id in s.heap && id in s.history && Fits(cfg.app, s.heap[id], s.history[id], action)
  }

  predicate ReadyId(cfg: Config, s: State, id: nat) {
    id in s.heap && id in s.history && Ready(cfg.app, s.heap[id], s.history[id])
  }

  predicate WorkerFits(cfg: Config, s: State, w: Worker) {
    match w.stage
    case Dequeued => ReadyId(cfg, s, w.tok.id)
    case Holding(_) => ReadyId(cfg, s, w.tok.id)
    case Finished(action) => FitsId(cfg, s, w.tok.id, action)
  }

  predicate ArmedFits(cfg: Config, s: State, a: Armed) {
    a.wants != Close && FitsId(cfg, s, a.id, a.wants)
  }

  predicate HandFits(cfg: Config, s: State, pc: Pc) {
    match pc
    case Adding(tok) => FitsId(cfg, s, tok.id, WaitReadable)
    case Enqueuing(tok) => ReadyId(cfg, s, tok.id)
    case _ => true
  }

  /** Wherever its token is, a connection is in the state that this place calls for. */
  ghost predicate PlacesFit(cfg: Config, s: State) {
    && (forall fd :: fd in s.armed ==> ArmedFits(cfg, s, s.armed[fd]))
    && (forall t :: t in s.queue ==> ReadyId(cfg, s, t.id))
    && (forall w :: w in s.running ==> WorkerFits(cfg, s, w))
    && (forall r :: r in s.pending ==> FitsId(cfg, s, r.tok.id, r.action))
    && (forall r :: r in s.batch ==> FitsId(cfg, s, r.tok.id, r.action))
    && HandFits(cfg, s, s.pc)
  }

  /** No connection, dead or alive, ever misbehaved. */
  ghost predicate HistoriesSound(cfg: Config, s: State) {
    forall id :: id in s.history ==> Track(cfg.app, s.history[id]) != Stuck
  }

  ghost predicate SafeInv(cfg: Config, s: State) {
    Inv(cfg, s) && PlacesFit(cfg, s) && HistoriesSound(cfg, s)
  }

  // ---------------------------------------------------------------------------------
  // Framing
  // ---------------------------------------------------------------------------------

  lemma PlacesInBag(s: State)
    ensures forall t :: t in s.queue ==> t in Tokens(s)
    ensures forall w :: w in s.running ==> w.tok in Tokens(s)
    ensures forall r :: r in s.pending ==> r.tok in Tokens(s)
    ensures forall r :: r in s.batch ==> r.tok in Tokens(s)
    ensures s.pc.Adding? || s.pc.Enqueuing? || s.pc.Erasing? ==> s.pc.tok in Tokens(s)
  {
    WorkerPlaces(s.running);
    RearmPlaces(s.pending);
    RearmPlaces(s.batch);
  }

  lemma WorkerPlaces(running: seq<Worker>)
    ensures forall w :: w in running ==> w.tok in WorkerToks(running)
  {
    forall w | w in running
      ensures w.tok in WorkerToks(running)
    {
      var i :| 0 <= i < |running| && running[i] == w;
      assert WorkerToks(running)[i] == w.tok;
    }
  }

  lemma RearmPlaces(rearms: seq<Rearm>)
    ensures forall r :: r in rearms ==> r.tok in RearmToks(rearms)
  {
    forall r | r in rearms
      ensures r.tok in RearmToks(rearms)
    {
      var i :| 0 <= i < |rearms| && rearms[i] == r;
      assert RearmToks(rearms)[i] == r.tok;
    }
  }

  /** The other tokens belong to other connections. */
  lemma OthersDiffer(cfg: Config, s: State, t: Tok, rest: State)
    requires Inv(cfg, s) && Tokens(s) == Tokens(rest) + multiset{t}
    ensures forall u :: u in Tokens(rest) ==> u.id != t.id
  {
    TokenIsLive(s, t, Tokens(rest));
  }

  /** Connection `id` is in `t` what it was in `s`. */
  ghost predicate Undisturbed(s: State, t: State, id: nat) {
    id in s.heap && id in s.history ==>
      id in t.heap && t.heap[id] == s.heap[id] && id in t.history && t.history[id] == s.history[id]
  }

  ghost predicate SamePlaces(s: State, t: State) {
    t == s.(connections := t.connections, heap := t.heap, history := t.history, nextId := t.nextId, open := t.open)
  }

  lemma FrameArmed(cfg: Config, s: State, t: State)
    requires PlacesFit(cfg, s) && SamePlaces(s, t) && forall u :: u in Tokens(s) ==> Undisturbed(s, t, u.id)
    ensures forall fd :: fd in t.armed ==> ArmedFits(cfg, t, t.armed[fd])
  {
    forall fd | fd in t.armed
      ensures ArmedFits(cfg, t, t.armed[fd])
    {
      ArmedMember(s.armed, fd);
      assert ArmedFits(cfg, s, s.armed[fd]);
      assert Tok(fd, s.armed[fd].id) in Tokens(s);
      assert Undisturbed(s, t, s.armed[fd].id);
    }
  }

  lemma FrameWorkers(cfg: Config, s: State, t: State)
    requires PlacesFit(cfg, s) && SamePlaces(s, t) && forall u :: u in Tokens(s) ==> Undisturbed(s, t, u.id)
    ensures forall w :: w in t.running ==> WorkerFits(cfg, t, w)
  {
    PlacesInBag(s);
    forall w | w in t.running
      ensures WorkerFits(cfg, t, w)
    {
      assert WorkerFits(cfg, s, w);
      assert Undisturbed(s, t, w.tok.id);
    }
  }

  /** Changing connections that hold none of the tokens disturbs no place. */
  lemma FrameFits(cfg: Config, s: State, t: State)
    requires PlacesFit(cfg, s) && SamePlaces(s, t) && forall u :: u in Tokens(s) ==> Undisturbed(s, t, u.id)
    ensures PlacesFit(cfg, t)
  {
    FrameArmed(cfg, s, t);
    FrameWorkers(cfg, s, t);
    PlacesInBag(s);
    forall q | q in t.queue
      ensures ReadyId(cfg, t, q.id)
    {
      assert ReadyId(cfg, s, q.id) && Undisturbed(s, t, q.id);
    }
    forall r | r in t.pending
      ensures FitsId(cfg, t, r.tok.id, r.action)
    {
      assert FitsId(cfg, s, r.tok.id, r.action) && Undisturbed(s, t, r.tok.id);
    }
    forall r | r in t.batch
      ensures FitsId(cfg, t, r.tok.id, r.action)
    {
      assert FitsId(cfg, s, r.tok.id, r.action) && Undisturbed(s, t, r.tok.id);
    }
    if s.pc.Adding? || s.pc.Enqueuing? {
      assert Undisturbed(s, t, s.pc.tok.id);
    }
  }

  /** A change to one token's connection leaves those of the other tokens alone. */
  lemma OthersUndisturbed(cfg: Config, s: State, tok: Tok, rest: State, t: State)
    requires Inv(cfg, s) && Tokens(s) == Tokens(rest) + multiset{tok}
    requires forall id :: id != tok.id ==> Undisturbed(rest, t, id)
    ensures forall u :: u in Tokens(rest) ==> Undisturbed(rest, t, u.id)
  {
    OthersDiffer(cfg, s, tok, rest);
  }

  // ---------------------------------------------------------------------------------
  // Every step keeps the agreement
  // ---------------------------------------------------------------------------------

  /** Every place of `t` is one of `s` or fits the state of its connection, which is the same
      in both. */
  ghost predicate PlacesFrom(cfg: Config, s: State, t: State) {
    && t.heap == s.heap && t.history == s.history
    && (forall fd :: fd in t.armed ==> (fd in s.armed && t.armed[fd] == s.armed[fd]) || ArmedFits(cfg, s, t.armed[fd]))
    && (forall q :: q in t.queue ==> q in s.queue || ReadyId(cfg, s, q.id))
    && (forall w :: w in t.running ==> w in s.running || WorkerFits(cfg, s, w))
    && (forall r :: r in t.pending ==> r in s.pending || FitsId(cfg, s, r.tok.id, r.action))
    && (forall r :: r in t.batch ==> r in s.batch || r in s.pending)
    && HandFits(cfg, s, t.pc)
  }

  /** Moving tokens to places that call for what their connections are keeps the agreement. */
  lemma MovedFits(cfg: Config, s: State, t: State)
    requires PlacesFit(cfg, s) && PlacesFrom(cfg, s, t)
    ensures PlacesFit(cfg, t)
  {
    forall fd | fd in t.armed
      ensures ArmedFits(cfg, t, t.armed[fd])
    {
      assert fd in s.armed ==> ArmedFits(cfg, s, s.armed[fd]);
    }
    forall w | w in t.running
      ensures WorkerFits(cfg, t, w)
    {
      assert w in s.running ==> WorkerFits(cfg, s, w);
    }
  }

  lemma ApplyFits(cfg: Config, s: State, t: State)
    requires PlacesFit(cfg, s) && Owned(s) && s.pc == Applying && s.batch != []
    requires t == ApplyRearm(s.(batch := s.batch[1..]), s.batch[0])
    ensures PlacesFit(cfg, t)
  {
    RearmTarget(s);
    assert s.batch[0] in s.batch;
    MovedFits(cfg, s, t);
  }

  lemma DispatchFits(cfg: Config, s: State, ev: Event, t: State)
    requires PlacesFit(cfg, s) && Owned(s) && s.pc == Dispatching
    requires ev.fd == cfg.listenFd || ev.fd in s.armed
    requires t == DispatchEvent(cfg, s, ev)
    ensures PlacesFit(cfg, t)
  {
    if ev.fd != cfg.listenFd {
      ArmedIsLive(s, ev.fd);
      assert ArmedFits(cfg, s, s.armed[ev.fd]);
    }
    MovedFits(cfg, s, t);
  }

  lemma AcceptFits(cfg: Config, s: State, t: State, fd: nat)
    requires PlacesFit(cfg, s) && s.pc == Accepting && (forall id :: id in s.history ==> id != s.nextId)
    requires t == s.(connections := t.connections, nextId := t.nextId, open := t.open, pc := Adding(Tok(fd, s.nextId)),
                     heap := s.heap[s.nextId := NEW_CONN], history := s.history[s.nextId := []])
    ensures PlacesFit(cfg, t)
  {
    var t' := t.(pc := Accepting);
    MovedFits(cfg, t', t);
  }

  lemma EraseFits(cfg: Config, s: State, t: State)
    requires PlacesFit(cfg, s) && Inv(cfg, s) && s.pc.Erasing?
    requires t == s.(connections := t.connections, heap := s.heap - {s.pc.tok.id}, open := t.open, pc := t.pc)
    requires t.pc == Applying || t.pc == Dispatching
    ensures PlacesFit(cfg, t)
  {
    var rest := s.(pc := t.pc);
    MovedFits(cfg, s, rest);
    assert forall u :: u in Tokens(rest) ==> Undisturbed(rest, t, u.id) by {
      HandToken(s, rest);
      OthersUndisturbed(cfg, s, s.pc.tok, rest, t);
    }
    FrameFits(cfg, rest, t);
  }

  /** The other places do not notice a worker's call. */
  lemma ActLeavesOthers(cfg: Config, s: State, i: nat, c: Conn, h: seq<Entry>)
    requires Inv(cfg, s) && PlacesFit(cfg, s) && i < |s.running|
    ensures var id := s.running[i].tok.id;
      PlacesFit(cfg, s.(running := Remove(s.running, i), heap := s.heap[id := c], history := s.history[id := h]))
  {
    var rest := s.(running := Remove(s.running, i));
    var id := s.running[i].tok.id;
    var t := rest.(heap := s.heap[id := c], history := s.history[id := h]);
    WorkerIsLive(s, i);
    OthersUndisturbed(cfg, s, s.running[i].tok, rest, t);
    assert PlacesFit(cfg, rest) by {
      MovedFits(cfg, s, rest);
    }
    FrameFits(cfg, rest, t);
  }

  lemma Replaced(running: seq<Worker>, i: nat, w: Worker)
    requires i < |running|
    ensures forall v :: v in running[i := w] ==> v == w || v in Remove(running, i)
  {
    forall v | v in running[i := w] && v != w
      ensures v in Remove(running, i)
    {
      var j :| 0 <= j < |running| && j != i && running[j] == v;
      assert v == Remove(running, i)[if j < i then j else j - 1];
    }
  }

  /** The worker's call leaves its connection fitting the action it is about to post, and no
      other connection is touched. */
  lemma ActFits(cfg: Config, s: State, i: nat, env: Env)
    requires SafeInv(cfg, s) && i < |s.running| && s.running[i].stage.Holding?
    ensures var id := s.running[i].tok.id;
      && id in s.heap && id in s.history && WellFormed(s.heap[id])
      && var o := Handle(cfg.app, s.heap[id], env);
         var h := s.history[id] + [o.entry];
         && Track(cfg.app, h) != Stuck
         && PlacesFit(cfg, s.(heap := s.heap[id := o.conn], history := s.history[id := h],
                              running := s.running[i := s.running[i].(stage := Finished(o.entry.action))]))
  {
    var w := s.running[i];
    var id := w.tok.id;
    assert WorkerFits(cfg, s, w);
    HandleFits(cfg.app, s.heap[id], s.history[id], env);
    var o := Handle(cfg.app, s.heap[id], env);
    var h := s.history[id] + [o.entry];
    ActLeavesOthers(cfg, s, i, o.conn, h);
    var rest := s.(running := Remove(s.running, i), heap := s.heap[id := o.conn], history := s.history[id := h]);
    var w' := w.(stage := Finished(o.entry.action));
    Replaced(s.running, i, w');
    MovedFits(cfg, rest, rest.(running := s.running[i := w']));
  }

  lemma DispatchStepFits(cfg: Config, s: State)
    requires PlacesFit(cfg, s) && Inv(cfg, s) && ReactorStep(cfg, s, DispatchNext).Some?
    ensures PlacesFit(cfg, ReactorStep(cfg, s, DispatchNext).value)
  {
    var rest := s.(events := s.events[1..]);
    assert s.events[0] in s.events;
    MovedFits(cfg, s, rest);
    DispatchFits(cfg, rest, s.events[0], ReactorStep(cfg, s, DispatchNext).value);
  }

  lemma ReactorFits(cfg: Config, s: State, l: Label)
    requires PlacesFit(cfg, s) && Inv(cfg, s) && !cfg.hangups && ReactorStep(cfg, s, l).Some?
    ensures PlacesFit(cfg, ReactorStep(cfg, s, l).value)
  {
    match l
    case ApplyNext => ApplyFits(cfg, s, ReactorStep(cfg, s, l).value);
    case DispatchNext => DispatchStepFits(cfg, s);
    case Accept(fd) => AcceptFits(cfg, s, ReactorStep(cfg, s, l).value, fd);
    case Erase => EraseFits(cfg, s, ReactorStep(cfg, s, l).value);
    case Swap | Wait(_) | Loop | Add | AcceptDone | Enqueue => MovedFits(cfg, s, ReactorStep(cfg, s, l).value);
  }

  lemma WorkerStepFits(cfg: Config, s: State, l: Label)
    requires PlacesFit(cfg, s) && WorkerStep(cfg, s, l).Some?
    ensures PlacesFit(cfg, WorkerStep(cfg, s, l).value)
  {
    match l {
      case Take => assert s.queue[0] in s.queue;
      case Lookup(i) => assert WorkerFits(cfg, s, s.running[i]);
      case Post(i) => assert WorkerFits(cfg, s, s.running[i]);
    }
    MovedFits(cfg, s, WorkerStep(cfg, s, l).value);
  }

  lemma OtherStepFits(cfg: Config, s: State, l: Label)
    requires PlacesFit(cfg, s) && OtherStep(cfg, s, l).Some?
    ensures PlacesFit(cfg, OtherStep(cfg, s, l).value)
  {
    MovedFits(cfg, s, OtherStep(cfg, s, l).value);
  }

  lemma QuietHistories(cfg: Config, s: State, l: Label)
    requires HistoriesSound(cfg, s) && !l.Act? && Step(cfg, s, l).Some?
    ensures HistoriesSound(cfg, Step(cfg, s, l).value)
  {
    assert Track(cfg.app, []) == Idle;
  }

  lemma ActSafe(cfg: Config, s: State, i: nat, env: Env)
    requires SafeInv(cfg, s) && ActStep(cfg, s, i, env).Some?
    ensures PlacesFit(cfg, ActStep(cfg, s, i, env).value) && HistoriesSound(cfg, ActStep(cfg, s, i, env).value)
  {
    ActFits(cfg, s, i, env);
  }

  lemma StepSafe(cfg: Config, s: State, l: Label)
    requires SafeInv(cfg, s) && !cfg.hangups && Step(cfg, s, l).Some?
    ensures SafeInv(cfg, Step(cfg, s, l).value)
  {
    StepKeeps(cfg, s, l);
    if l.Act? {
      ActSafe(cfg, s, l.i, l.env);
    } else {
      QuietHistories(cfg, s, l);
      if IsWorkerLabel(l) {
        WorkerStepFits(cfg, s, l);
      } else if IsOtherLabel(l) {
        OtherStepFits(cfg, s, l);
      } else {
        ReactorFits(cfg, s, l);
      }
    }
  }

  lemma {:induction false} RunSafe(cfg: Config, s: State, labels: seq<Label>)
    requires SafeInv(cfg, s) && !cfg.hangups && Run(cfg, s, labels).Some?
    ensures SafeInv(cfg, Run(cfg, s, labels).value)
    decreases |labels|
  {
    if labels != [] {
      StepSafe(cfg, s, labels[0]);
      RunSafe(cfg, Step(cfg, s, labels[0]).value, labels[1..]);
    }
  }

  /** The whole invariant holds in every reachable state. */
  lemma ReachableSafe(cfg: Config, s: State)
    requires Reachable(cfg, s) && !cfg.hangups
    ensures SafeInv(cfg, s)
  {
    var labels :| Run(cfg, INIT, labels) == Some(s);
    assert Run(cfg, INIT, []) == Some(INIT);
    ReachableInv(cfg, INIT);
    RunSafe(cfg, INIT, labels);
  }

  // ---------------------------------------------------------------------------------
  // The theorems
  // ---------------------------------------------------------------------------------

  /** Exactly one token: in every reachable state every live connection is in exactly one
      place and every token stands for the live connection it was made for. */
  lemma OneTokenEach(cfg: Config, s: State)
    requires Reachable(cfg, s) && !cfg.hangups
    ensures forall fd :: fd in s.connections ==> Tokens(s)[Tok(fd, s.connections[fd])] == 1
    ensures forall t :: t in Tokens(s) ==> t.fd in s.connections && s.connections[t.fd] == t.id
  {
    ReachableInv(cfg, s);
    forall t: Tok
      ensures t in Pairs(s.connections) <==> t.fd in s.connections && s.connections[t.fd] == t.id
    {
    }
  }

  lemma OtherWorker(s: State, i: nat, j: nat)
    requires Owned(s) && i < j < |s.running|
    ensures s.running[i].tok.fd != s.running[j].tok.fd
  {
    WorkerIsLive(s, i);
    var rest := s.(running := Remove(s.running, i));
    TokenIsLive(s, s.running[i].tok, Tokens(rest));
    assert WorkerToks(rest.running)[j - 1] == s.running[j].tok;
    assert s.running[j].tok in multiset(WorkerToks(rest.running));
  }

  /** No duplicate dispatch: two busy workers never serve the same descriptor. */
  lemma NoDuplicateDispatch(cfg: Config, s: State, i: nat, j: nat)
    requires Reachable(cfg, s) && !cfg.hangups && i < j < |s.running|
    ensures s.running[i].tok.fd != s.running[j].tok.fd
  {
    ReachableInv(cfg, s);
    OtherWorker(s, i, j);
  }

  /** Descriptors are reused safely: what `accept` yields is in no use. The kernel only knows
      that the descriptor is not open; that no live connection, task, worker, re-arm or armed
      entry has it, and no entry of the table is overwritten, is a consequence. */
  lemma AcceptTakesAFreeDescriptor(cfg: Config, s: State, fd: nat)
    requires Reachable(cfg, s) && !cfg.hangups && Step(cfg, s, Accept(fd)).Some?
    ensures fd !in s.connections && fd !in s.armed
    ensures forall t :: t in Tokens(s) ==> t.fd != fd
  {
    OneTokenEach(cfg, s);
    ArmedIsOpen(cfg, s);
  }

  lemma ArmedIsOpen(cfg: Config, s: State)
    requires Reachable(cfg, s) && !cfg.hangups
    ensures forall fd :: fd in s.connections || fd in s.armed ==> fd in s.open
  {
    ReachableInv(cfg, s);
    forall fd | fd in s.armed
      ensures fd in s.open
    {
      ArmedIsLive(s, fd);
    }
  }

  /** The descriptor a worker serves is neither armed nor queued nor waiting to be re-armed
      nor in the reactor's hand. */
  lemma WorkerIsAlone(cfg: Config, s: State, i: nat)
    requires Reachable(cfg, s) && !cfg.hangups && i < |s.running|
    ensures var fd := s.running[i].tok.fd;
      && fd !in s.armed
      && (forall t :: t in s.queue ==> t.fd != fd)
      && (forall r :: r in s.pending ==> r.tok.fd != fd)
      && (forall r :: r in s.batch ==> r.tok.fd != fd)
      && (s.pc.Adding? || s.pc.Enqueuing? || s.pc.Erasing? ==> s.pc.tok.fd != fd)
  {
    ReachableInv(cfg, s);
    WorkerIsLive(s, i);
    var rest := s.(running := Remove(s.running, i));
    TokenIsLive(s, s.running[i].tok, Tokens(rest));
    PlacesInBag(rest);
    NotArmedBeside(s, s.running[i].tok, rest);
  }

  /** No use after free under descriptor reuse: from its lookup to its post a worker holds
      the live connection object its task was made for, so its call is always possible. */
  lemma NoDanglingPointer(cfg: Config, s: State, i: nat, env: Env)
    requires Reachable(cfg, s) && !cfg.hangups && i < |s.running|
    ensures s.running[i].tok.fd in s.connections && s.connections[s.running[i].tok.fd] == s.running[i].tok.id
    ensures s.running[i].tok.id in s.heap
    ensures s.running[i].stage.Holding? ==>
      s.running[i].stage.conn == s.running[i].tok.id && Step(cfg, s, Act(i, env)).Some?
  {
    ReachableSafe(cfg, s);
    WorkerIsLive(s, i);
    assert WorkerFits(cfg, s, s.running[i]);
  }

  /** A re-arm waiting to be applied still concerns the connection it was posted for. */
  lemma RearmHitsItsConnection(cfg: Config, s: State, r: Rearm)
    requires Reachable(cfg, s) && !cfg.hangups && (r in s.pending || r in s.batch)
    ensures r.tok.fd in s.connections && s.connections[r.tok.fd] == r.tok.id && r.tok.fd !in s.armed
  {
    OneTokenEach(cfg, s);
    PlacesInBag(s);
    ReachableInv(cfg, s);
    if r in s.pending {
      RearmNotArmed(s, s.pending, r);
    } else {
      RearmNotArmed(s, s.batch, r);
    }
  }

  lemma RearmNotArmed(s: State, rearms: seq<Rearm>, r: Rearm)
    requires Owned(s) && (rearms == s.pending || rearms == s.batch) && r in rearms
    ensures r.tok.fd !in s.armed
  {
    forall fd | fd in s.armed
      ensures fd != r.tok.fd
    {
      var rest := s.(armed := s.armed - {fd});
      Disarm(s.armed, fd);
      assert Tokens(s) == Tokens(rest) + multiset{Tok(fd, s.armed[fd].id)};
      TokenIsLive(s, Tok(fd, s.armed[fd].id), Tokens(rest));
      PlacesInBag(rest);
    }
  }

  /** Write-mode agreement for the event loop: a descriptor armed to be readable has nothing
      pending and an unfinished parser, one armed to be writable has pending bytes and a
      parser that is done or has failed. */
  lemma ArmedAgreement(cfg: Config, s: State, fd: nat)
    requires Reachable(cfg, s) && !cfg.hangups && fd in s.armed
    ensures fd in s.connections && s.connections[fd] in s.heap
    ensures var c := s.heap[s.connections[fd]];
      match s.armed[fd].wants
      case WaitReadable => !HasPending(c.outbox) && Unfinished(c.parser.phase)
      case WaitWritable => HasPending(c.outbox) && !Unfinished(c.parser.phase)
      case Close => false
  {
    ReachableSafe(cfg, s);
    ArmedIsLive(s, fd);
    assert ArmedFits(cfg, s, s.armed[fd]);
  }

  /** `consume` is only ever called on an unfinished parser: whenever a worker is about to
      read from its connection, the parser can still make progress, so the fall-through that
      reports success for a failed parser is never taken. */
  lemma ConsumeNeverOnFailed(cfg: Config, s: State, i: nat)
    requires Reachable(cfg, s) && !cfg.hangups && i < |s.running| && s.running[i].stage.Holding?
    ensures s.running[i].stage.conn in s.heap
    ensures var c := s.heap[s.running[i].stage.conn];
      !HasPending(c.outbox) ==> Unfinished(c.parser.phase)
  {
    ReachableSafe(cfg, s);
    assert WorkerFits(cfg, s, s.running[i]);
  }

  /** Every connection that ever existed behaved as `Track` describes, so the consequences
      for refused requests, keep-alive and interleaving hold of it. */
  lemma HistoriesNeverStuck(cfg: Config, s: State, id: nat)
    requires Reachable(cfg, s) && !cfg.hangups && id in s.history
    ensures Track(cfg.app, s.history[id]) != Stuck
  {
    ReachableSafe(cfg, s);
  }

  /** A malformed request gets one 400 and nothing else, and the connection is not read
      again: every later call only finishes writing, and only the last one may close. */
  lemma RefusedOnceThenClosed(cfg: Config, s: State, id: nat, i: nat, j: nat)
    requires Reachable(cfg, s) && !cfg.hangups && id in s.history && i <= j < |s.history[id]|
    requires s.history[id][i].answer == Some(Refused)
    ensures s.history[id][j].action != WaitReadable
    ensures j > i ==> s.history[id][j].answer == None
    ensures j + 1 < |s.history[id]| ==> s.history[id][j].action == WaitWritable
  {
    HistoriesNeverStuck(cfg, s, id);
    RefusalIsFinal(cfg.app, s.history[id], i, j);
  }

  /** Keep-alive over whole runs: after a response is fully written, the action follows the
      flag set with it exactly for the load balancer, for a flag that is on, or when the
      write took more than one call. */
  lemma KeepAliveOverRuns(cfg: Config, s: State, id: nat, i: nat, j: nat)
    requires Reachable(cfg, s) && !cfg.hangups
    requires id in s.history && i <= j < |s.history[id]|
    requires s.history[id][i].answer.Some? && s.history[id][i].answer.value.Served?
    requires forall k :: i <= k < j ==> s.history[id][k].action == WaitWritable
    requires s.history[id][j].action != WaitWritable
    ensures s.history[id][j].action == ByFlag(s.history[id][i].answer.value.keepAlive)
      <==> cfg.app == LoadBalancer || s.history[id][i].answer.value.keepAlive || i < j
  {
    HistoriesNeverStuck(cfg, s, id);
    KeepAliveHonoured(cfg.app, s.history[id], i, j);
  }

  /** The load balancer's keep-alive promise, over whole runs. */
  lemma LoadBalancerKeepsItsWord(cfg: Config, s: State, id: nat, i: nat, j: nat)
    requires Reachable(cfg, s) && !cfg.hangups && cfg.app == LoadBalancer
    requires id in s.history && i <= j < |s.history[id]|
    requires s.history[id][i].answer.Some? && s.history[id][i].answer.value.Served?
    requires forall k :: i <= k < j ==> s.history[id][k].action == WaitWritable
    requires s.history[id][j].action != WaitWritable
    ensures s.history[id][j].action == Close <==> !s.history[id][i].answer.value.keepAlive
  {
    KeepAliveOverRuns(cfg, s, id, i, j);
  }

  lemma StepBounded(cfg: Config, s: State, l: Label)
    requires |s.running| <= cfg.workers && Step(cfg, s, l).Some?
    ensures |Step(cfg, s, l).value.running| <= cfg.workers
  {
  }

  lemma {:induction false} RunBounded(cfg: Config, s: State, labels: seq<Label>)
    requires |s.running| <= cfg.workers && Run(cfg, s, labels).Some?
    ensures |Run(cfg, s, labels).value.running| <= cfg.workers
    decreases |labels|
  {
    if labels != [] {
      StepBounded(cfg, s, labels[0]);
      RunBounded(cfg, Step(cfg, s, labels[0]).value, labels[1..]);
    }
  }

  /** No thread is spawned for a burst of tasks: at most all workers are busy. */
  lemma AtMostAllWorkers(cfg: Config, s: State)
    requires Reachable(cfg, s)
    ensures |s.running| <= cfg.workers
  {
    var labels :| Run(cfg, INIT, labels) == Some(s);
    RunBounded(cfg, INIT, labels);
  }
}
