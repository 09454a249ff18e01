/** The hand-off on top of the kqueue backend: `wait` answers with what the kernel's filters
    report, and what was assumed about armed descriptors is a consequence. */
module KqueueHandoff {
  import opened Text
  import opened Workers
  import opened Handoff
  import opened HandoffOwnership
  import opened HandoffSafety
  import opened HandoffHangups
  import K = Kqueue

  /** The threads together with the event loop and the kernel behind it. */
  datatype Node = Node(state: State, loop: K.Queue)

  /** A step of some thread other than a wait, or a wait that the kernel answers. */
  datatype Move = Plain(l: Label) | Poll(reports: seq<K.Kevent>, out: seq<K.IoEvent>)

  /** The call that a step makes on the event loop, if it makes one. */
  function LoopCall(cfg: Config, s: State, l: Label): Option<K.Op> {
    match l
    case ApplyNext =>
      if s.batch == [] || s.batch[0].tok.fd !in s.connections then None
      else
        (match s.batch[0].action
         case WaitReadable => Some(K.Op.Modify(s.batch[0].tok.fd, K.READABLE))
         case WaitWritable => Some(K.Op.Modify(s.batch[0].tok.fd, K.WRITABLE))
         case Close => Some(K.Op.Remove(s.batch[0].tok.fd)))
    case DispatchNext =>
      if s.events == [] || s.events[0].fd == cfg.listenFd || s.events[0].fd !in s.connections then None
      else if s.events[0].error then Some(K.Op.Remove(s.events[0].fd))
      else Some(K.Op.Modify(s.events[0].fd, 0))
    case Add => if s.pc.Adding? then Some(K.Op.Modify(s.pc.tok.fd, K.READABLE)) else None
    case _ => None
  }

  function Called(loop: K.Queue, call: Option<K.Op>): K.Queue {
    if call.Some? then K.Perform(loop, call.value) else loop
  }

  /** The next node. A wait takes whatever the merge makes of the kernel's reports. */
  ghost function Next(cfg: Config, n: Node, m: Move): Option<Node> {
    match m
    case Plain(l) =>
      if l.Wait? then None
      else
        (match Step(cfg, n.state, l)
         case None => None
         case Some(s) => Some(Node(s, Called(n.loop, LoopCall(cfg, n.state, l)))))
    case Poll(reports, out) =>
      if && n.state.pc == Applying && n.state.batch == []
         && (forall e :: e in reports ==> e.reg in n.loop.kernel) && K.Summary(reports, out)
      then Some(n.(state := n.state.(events := K.Seen(out), pc := Dispatching)))
      else None
  }

  ghost function Moves(cfg: Config, n: Node, moves: seq<Move>): Option<Node>
    decreases |moves|
  {
    if moves == [] then Some(n)
    else match Next(cfg, n, moves[0])
      case None => None
      case Some(next) => Moves(cfg, next, moves[1..])
  }

  /** Before the first turn only the listening socket is registered. */
  function Booted(cfg: Config): Node {
    Node(INIT, K.Perform(K.Queue(map[], {}), K.Op.Modify(cfg.listenFd, K.READABLE)))
  }

  // ---------------------------------------------------------------------------------
  // The event loop's table is the armed table
  // ---------------------------------------------------------------------------------

  function ArmedMask(cfg: Config, s: State, fd: nat): bv8 {
    if fd == cfg.listenFd then K.READABLE
    else if fd !in s.armed then 0
    else if s.armed[fd].wants == WaitReadable then K.READABLE
    else K.WRITABLE
  }

  ghost predicate InStep(cfg: Config, n: Node) {
    K.Agrees(n.loop) && forall fd :: K.Mask(n.loop.interest, fd) == ArmedMask(cfg, n.state, fd)
  }

  /** The same program with an event loop that never reports a disarmed descriptor. */
  function Trusted(cfg: Config): Config {
    cfg.(hangups := false)
  }

  lemma BootInStep(cfg: Config)
    ensures InStep(cfg, Booted(cfg))
  {
    assert [K.Op.Modify(cfg.listenFd, K.READABLE)][..0] == [];
    K.KernelFollowsMasks([]);
    K.ModifyAgrees(K.Queue(map[], {}), cfg.listenFd, K.READABLE);
    forall fd
      ensures K.Mask(Booted(cfg).loop.interest, fd) == ArmedMask(cfg, INIT, fd)
    {
      K.RememberMask(map[], cfg.listenFd, K.READABLE, fd);
    }
  }

  /** What one call does to table and kernel. */
  lemma CallAgrees(loop: K.Queue, call: K.Op, fd: nat)
    requires K.Agrees(loop)
    ensures K.Agrees(K.Perform(loop, call))
    ensures K.Mask(K.Perform(loop, call).interest, fd)
         == if fd != call.fd then K.Mask(loop.interest, fd) else if call.Modify? then call.mask else 0
  {
    var mask := if call.Modify? then call.mask else 0;
    K.ModifyAgrees(loop, call.fd, mask);
    K.RemoveAgrees(loop, call.fd);
    K.RememberMask(loop.interest, call.fd, mask, fd);
  }

  /** The listening socket is no connection, and never the one in the reactor's hand. */
  ghost predicate ListenApart(cfg: Config, s: State) {
    cfg.listenFd !in s.connections && (s.pc.Adding? ==> s.pc.tok.fd != cfg.listenFd)
  }

  lemma ReachableListenApart(cfg: Config, s: State)
    requires Reachable(Trusted(cfg), s)
    ensures ListenApart(cfg, s)
  {
    ReachableInv(Trusted(cfg), s);
    OneTokenEach(Trusted(cfg), s);
    PlacesInBag(s);
  }

  /** The calls of a step follow what it does to the armed table, and no call ever concerns
      the listening socket. */
  lemma CallFollowsArming(cfg: Config, s: State, l: Label, fd: nat)
    requires ListenApart(cfg, s) && !l.Wait? && Step(cfg, s, l).Some?
    ensures var t := Step(cfg, s, l).value;
      var call := LoopCall(cfg, s, l);
      ArmedMask(cfg, t, fd)
        == if call.None? || fd != call.value.fd then ArmedMask(cfg, s, fd)
           else if call.value.Modify? then call.value.mask else 0
  {
  }

  lemma PlainInStep(cfg: Config, n: Node, l: Label)
    requires Reachable(Trusted(cfg), n.state) && InStep(cfg, n) && Next(cfg, n, Plain(l)).Some?
    ensures InStep(cfg, Next(cfg, n, Plain(l)).value)
  {
    var next := Next(cfg, n, Plain(l)).value;
    var call := LoopCall(cfg, n.state, l);
    ReachableListenApart(cfg, n.state);
    forall fd
      ensures K.Mask(next.loop.interest, fd) == ArmedMask(cfg, next.state, fd) && K.Agrees(next.loop)
    {
      CallFollowsArming(cfg, n.state, l, fd);
      if call.Some? {
        CallAgrees(n.loop, call.value, fd);
      }
    }
    assert K.Mask(next.loop.interest, 0) == ArmedMask(cfg, next.state, 0);
  }

  /** The kernel's reports are a batch that the trusted event loop could have delivered. */
  lemma PollIsWait(cfg: Config, n: Node, reports: seq<K.Kevent>, out: seq<K.IoEvent>)
    requires InStep(cfg, n) && Next(cfg, n, Poll(reports, out)).Some?
    ensures Step(Trusted(cfg), n.state, Wait(K.Seen(out))) == Some(Next(cfg, n, Poll(reports, out)).value.state)
  {
    K.ReportsArmedOnly(Trusted(cfg), n.state, n.loop, reports, out);
  }

  lemma NextRefines(cfg: Config, n: Node, m: Move)
    requires Reachable(Trusted(cfg), n.state) && InStep(cfg, n) && Next(cfg, n, m).Some?
    ensures Reachable(Trusted(cfg), Next(cfg, n, m).value.state) && InStep(cfg, Next(cfg, n, m).value)
  {
    var next := Next(cfg, n, m).value;
    match m
    case Plain(l) =>
      PlainInStep(cfg, n, l);
      assert Step(Trusted(cfg), n.state, l) == Step(cfg, n.state, l);
      ReachStep(Trusted(cfg), n.state, l, next.state);
    case Poll(reports, out) =>
      PollIsWait(cfg, n, reports, out);
      ReachStep(Trusted(cfg), n.state, Wait(K.Seen(out)), next.state);
  }

  lemma {:induction false} MovesRefine(cfg: Config, n: Node, moves: seq<Move>)
    requires Reachable(Trusted(cfg), n.state) && InStep(cfg, n) && Moves(cfg, n, moves).Some?
    ensures var t := Moves(cfg, n, moves).value;
      Reachable(Trusted(cfg), t.state) && InStep(cfg, t)
    decreases |moves|
  {
    if moves != [] {
      NextRefines(cfg, n, moves[0]);
      MovesRefine(cfg, Next(cfg, n, moves[0]).value, moves[1..]);
    }
  }

  /** Refinement: every run over kqueue is a run of the hand-off with a trusted event loop,
      and the kernel's filters are those of the armed table throughout.  Hence every theorem
      about the hand-off holds over kqueue: one token each, and no dangling pointer. */
  lemma KqueueDischargesTheAssumption(cfg: Config, moves: seq<Move>)
    requires Moves(cfg, Booted(cfg), moves).Some?
    ensures var n := Moves(cfg, Booted(cfg), moves).value;
      && Reachable(Trusted(cfg), n.state) && InStep(cfg, n)
      && Owned(n.state) && NoDangling(n.state)
  {
    BootInStep(cfg);
    assert Run(Trusted(cfg), INIT, []) == Some(INIT);
    MovesRefine(cfg, Booted(cfg), moves);
    var s := Moves(cfg, Booted(cfg), moves).value.state;
    ReachableInv(Trusted(cfg), s);
    forall i | 0 <= i < |s.running| && s.running[i].stage.Holding?
      ensures s.running[i].stage.conn in s.heap
    {
      NoDanglingPointer(Trusted(cfg), s, i, Env(Again, NoneHealthy, BAD_REQUEST, []));
    }
  }

  /** What the kernel watches, in every run: the listening socket and the descriptors armed to
      be readable with a read filter, those armed to be writable with a write filter, and
      nothing else. */
  lemma KernelWatchesWhatIsArmed(cfg: Config, moves: seq<Move>, fd: nat)
    requires Moves(cfg, Booted(cfg), moves).Some?
    ensures var n := Moves(cfg, Booted(cfg), moves).value;
      && (K.Registration(fd, K.ReadFilter) in n.loop.kernel <==>
            fd == cfg.listenFd || (fd in n.state.armed && n.state.armed[fd].wants == WaitReadable))
      && (K.Registration(fd, K.WriteFilter) in n.loop.kernel <==>
            fd != cfg.listenFd && fd in n.state.armed && n.state.armed[fd].wants == WaitWritable)
  {
    KqueueDischargesTheAssumption(cfg, moves);
    var n := Moves(cfg, Booted(cfg), moves).value;
    if fd in n.state.armed {
      NeverArmedToClose(Trusted(cfg), n.state, fd);
    }
    assert K.Mask(n.loop.interest, fd) == ArmedMask(cfg, n.state, fd);
  }

  lemma NeverArmedToClose(cfg: Config, s: State, fd: nat)
    requires Reachable(cfg, s) && !cfg.hangups && fd in s.armed
    ensures s.armed[fd].wants != Close
  {
    ReachableSafe(cfg, s);
    assert ArmedFits(cfg, s, s.armed[fd]);
  }
}
