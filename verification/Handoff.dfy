/** The reactor/worker hand-off as a labelled step system.  One reactor thread owns the
    event loop and the connection table; any number of worker threads take tasks, work on a
    connection and post a re-arm.  A label names the thread's next step between two lock
    operations and carries what the environment decided.

    Tasks and re-arms hold only a file descriptor in the program.  Here each also carries the
    identity of the connection it was made for, which no step ever reads: steps look the
    descriptor up in the table exactly as the program does. */
module Handoff {
  import opened Text
  import opened Seqs
  import opened Workers

  /** A descriptor and the identity of the connection object it stands for. */
  datatype Tok = Tok(fd: nat, id: nat)

  /** Interest registered with the event loop, waiting to be readable or writable. A descriptor
      whose mask is 0 is not in the `armed` map. */
  datatype Armed = Armed(id: nat, wants: Action)

  datatype Rearm = Rearm(tok: Tok, action: Action)

  datatype Event = Event(fd: nat, error: bool)

  /** A busy worker: before its lookup, holding the pointer it found, or about to post. */
  datatype Stage = Dequeued | Holding(conn: nat) | Finished(action: Action)

  datatype Worker = Worker(tok: Tok, stage: Stage)

  /** Where the reactor thread is in its loop. The last three hold a connection in hand. */
  datatype Pc =
    | Top
    | Applying
    | Dispatching
    | Accepting
    | Adding(tok: Tok)
    | Enqueuing(tok: Tok)
    | Erasing(tok: Tok, applying: bool)

  /** `open` is the kernel's: the descriptors that the process has open, apart from the
      listening socket. */
  datatype State = State(
    connections: map<nat, nat>,
    heap: map<nat, Conn>,
    history: map<nat, seq<Entry>>,
    nextId: nat,
    armed: map<nat, Armed>,
    queue: seq<Tok>,
    running: seq<Worker>,
    pending: seq<Rearm>,
    pc: Pc,
    batch: seq<Rearm>,
    events: seq<Event>,
    open: set<nat>)

  /** `hangups` says whether the event loop may report an error on a registered descriptor
      whose mask is 0, as epoll does. */
  datatype Config = Config(app: App, listenFd: nat, workers: nat, hangups: bool)

  datatype Label =
    | Swap
    | ApplyNext
    | Wait(events: seq<Event>)
    | Loop
    | DispatchNext
    | Accept(fd: nat)
    | Add
    | AcceptDone
    | Enqueue
    | Erase
    | Take
    | Lookup(i: nat)
    | Act(i: nat, env: Env)
    | Post(i: nat)
    | Open(fd: nat)
    | Shut(fd: nat)

  const INIT: State :=
    State(map[], map[], map[], 0, map[], [], [], [], Top, [], [], {})

  // ---------------------------------------------------------------------------------
  // Reactor steps
  // ---------------------------------------------------------------------------------

  /** One element of the swapped batch in `applyPendingRearms`. */
  function ApplyRearm(s: State, r: Rearm): State {
    var fd := r.tok.fd;
    if fd !in s.connections then s
    else
      match r.action
      case WaitReadable => s.(armed := s.armed[fd := Armed(s.connections[fd], WaitReadable)])
      case WaitWritable => s.(armed := s.armed[fd := Armed(s.connections[fd], WaitWritable)])
      case Close => s.(armed := s.armed - {fd}, pc := Erasing(Tok(fd, s.connections[fd]), true))
  }

  /** One element of the event batch in `reactorLoop`. */
  function DispatchEvent(cfg: Config, s: State, ev: Event): State {
    if ev.fd == cfg.listenFd then s.(pc := Accepting)
    else if ev.fd !in s.connections then s
    else
      var tok := Tok(ev.fd, s.connections[ev.fd]);
      s.(armed := s.armed - {ev.fd}, pc := if ev.error then Erasing(tok, false) else Enqueuing(tok))
  }

  /** What the event loop may report: the listening socket, an armed descriptor, or, with
      hangups, an error on any registered descriptor. */
  predicate Deliverable(cfg: Config, s: State, ev: Event) {
    || ev.fd == cfg.listenFd
    || ev.fd in s.armed
    || (cfg.hangups && ev.error && ev.fd in s.connections)
  }

  predicate OneEventPerFd(events: seq<Event>) {
    forall i, j :: 0 <= i < j < |events| ==> events[i].fd != events[j].fd
  }

  predicate Plausible(cfg: Config, s: State, events: seq<Event>) {
    OneEventPerFd(events) && forall ev :: ev in events ==> Deliverable(cfg, s, ev)
  }

  function ReactorStep(cfg: Config, s: State, l: Label): Option<State> {
    match l
    case Swap =>
      if s.pc == Top then Some(s.(batch := s.pending, pending := [], pc := Applying)) else None
    case ApplyNext =>
      if s.pc == Applying && s.batch != [] then
        Some(ApplyRearm(s.(batch := s.batch[1..]), s.batch[0]))
      else None
    case Wait(events) =>
      if s.pc == Applying && s.batch == [] && Plausible(cfg, s, events) then
        Some(s.(events := events, pc := Dispatching))
      else None
    case Loop =>
      if s.pc == Dispatching && s.events == [] then Some(s.(pc := Top)) else None
    case DispatchNext =>
      if s.pc == Dispatching && s.events != [] then
        Some(DispatchEvent(cfg, s.(events := s.events[1..]), s.events[0]))
      else None
    case Accept(fd) =>
      if s.pc == Accepting && fd != cfg.listenFd && fd !in s.open then
        Some(s.(connections := s.connections[fd := s.nextId],
                heap := s.heap[s.nextId := NEW_CONN],
                history := s.history[s.nextId := []],
                nextId := s.nextId + 1,
                open := s.open + {fd},
                pc := Adding(Tok(fd, s.nextId))))
      else None
    case Add =>
      if s.pc.Adding? then
        Some(s.(armed := s.armed[s.pc.tok.fd := Armed(s.pc.tok.id, WaitReadable)], pc := Accepting))
      else None
    case AcceptDone =>
      if s.pc == Accepting then Some(s.(pc := Dispatching)) else None
    case Enqueue =>
      if s.pc.Enqueuing? then Some(s.(queue := s.queue + [s.pc.tok], pc := Dispatching)) else None
    case Erase =>
      if s.pc.Erasing? then
        Some(s.(connections := s.connections - {s.pc.tok.fd},
                heap := s.heap - {s.pc.tok.id},
                open := s.open - {s.pc.tok.fd},
                pc := if s.pc.applying then Applying else Dispatching))
      else None
    case _ => None
  }

  // ---------------------------------------------------------------------------------
  // Worker steps
  // ---------------------------------------------------------------------------------

  function WorkerStep(cfg: Config, s: State, l: Label): Option<State> {
    match l
    case Take =>
      if s.queue != [] && |s.running| < cfg.workers then
        Some(s.(queue := s.queue[1..], running := s.running + [Worker(s.queue[0], Dequeued)]))
      else None
    case Lookup(i) =>
      if i < |s.running| && s.running[i].stage == Dequeued then
        var w := s.running[i];
        if w.tok.fd in s.connections then
          Some(s.(running := s.running[i := w.(stage := Holding(s.connections[w.tok.fd]))]))
        else
          Some(s.(running := Remove(s.running, i)))
      else None
    case Post(i) =>
      if i < |s.running| && s.running[i].stage.Finished? then
        var w := s.running[i];
        Some(s.(pending := s.pending + [Rearm(w.tok, w.stage.action)],
                running := Remove(s.running, i)))
      else None
    case _ => None
  }

  /** The call itself: the body of the handler, which runs without any lock. */
  function ActStep(cfg: Config, s: State, i: nat, env: Env): Option<State> {
    if i < |s.running| && s.running[i].stage.Holding? then
      var w := s.running[i];
      var id := w.stage.conn;
      if id in s.heap && id in s.history && WellFormed(s.heap[id]) then
        var o := Handle(cfg.app, s.heap[id], env);
        Some(s.(heap := s.heap[id := o.conn],
                history := s.history[id := s.history[id] + [o.entry]],
                running := s.running[i := w.(stage := Finished(o.entry.action))]))
      else None
    else None
  }

  predicate IsWorkerLabel(l: Label) {
    l.Take? || l.Lookup? || l.Act? || l.Post?
  }

  // ---------------------------------------------------------------------------------
  // The rest of the process
  // ---------------------------------------------------------------------------------

  /** Sockets to upstreams and of health probes come and go: the kernel gives a descriptor
      that is not open, and only the owner of a descriptor closes it. */
  function OtherStep(cfg: Config, s: State, l: Label): Option<State> {
    match l
    case Open(fd) =>
      if fd != cfg.listenFd && fd !in s.open then Some(s.(open := s.open + {fd})) else None
    case Shut(fd) =>
      if fd in s.open && fd !in s.connections then Some(s.(open := s.open - {fd})) else None
    case _ => None
  }

  predicate IsOtherLabel(l: Label) {
    l.Open? || l.Shut?
  }

  /** The next state, if the step is possible. */
  function Step(cfg: Config, s: State, l: Label): Option<State> {
    if l.Act? then ActStep(cfg, s, l.i, l.env)
    else if IsWorkerLabel(l) then WorkerStep(cfg, s, l)
    else if IsOtherLabel(l) then OtherStep(cfg, s, l)
    else ReactorStep(cfg, s, l)
  }

  /** The state after an interleaving, if every step of it was possible. */
  function Run(cfg: Config, s: State, labels: seq<Label>): Option<State>
    decreases |labels|
  {
    if labels == [] then Some(s)
    else match Step(cfg, s, labels[0])
      case None => None
      case Some(next) => Run(cfg, next, labels[1..])
  }

  /** A state that some interleaving leads to. */
  ghost predicate Reachable(cfg: Config, s: State) {
    exists labels :: Run(cfg, INIT, labels) == Some(s)
  }
}
