/** The reactor thread's own code: the loops of `applyPendingRearms`, `handleAccept` and
    `reactorLoop` over the shared tables, and the body of a worker's task. */
module Reactor {
  import opened Workers
  import opened Handoff
  import opened HandoffOwnership
  import opened Turns
  import opened TurnEffects

  class ReactorThread {
    const cfg: Config
    var connections: map<nat, nat>
    var heap: map<nat, Conn>
    var history: map<nat, seq<Entry>>
    var nextId: nat
    var armed: map<nat, Armed>
    var queue: seq<Tok>
    var running: seq<Worker>
    var pending: seq<Rearm>
    var open: set<nat>

    /** The fields, seen with the reactor at `pc` and nothing in its locals. */
    function View(pc: Pc): State
      reads this
    {
      State(connections, heap, history, nextId, armed, queue, running, pending, pc, [], [], open)
    }

    constructor (cfg: Config)
      ensures this.cfg == cfg && View(Top) == INIT
    {
      this.cfg := cfg;
      connections, heap, history, nextId := map[], map[], map[], 0;
      armed, queue, running, pending, open := map[], [], [], [], {};
    }

    /** `postRearm`, called by a worker. */
    method PostRearm(tok: Tok, action: Action)
      modifies this`pending
      ensures pending == old(pending) + [Rearm(tok, action)]
    {
      pending := pending + [Rearm(tok, action)];
    }

    /** Takes a connection out of the table and destroys it, which closes its descriptor. */
    method Discard(fd: nat)
      requires fd in connections
      modifies this`connections, this`heap, this`open
      ensures connections == old(connections) - {fd} && heap == old(heap) - {old(connections[fd])}
      ensures open == old(open) - {fd}
    {
      open := open - {fd};
      heap := heap - {connections[fd]};
      connections := connections - {fd};
    }

    /** `applyPendingRearms`: swap the list, then apply it in order. */
    method ApplyPendingRearms()
      modifies this
      ensures View(Applying) == Applied(cfg, old(View(Top)).(pending := [], pc := Applying), old(pending))
      ensures Targets(old(View(Top)), old(pending)) ==>
        Rearmed(old(View(Top)).(pending := []), View(Applying), old(pending))
    {
      ghost var s := View(Top);
      var rearms := pending;
      pending := [];
      ghost var start := View(Applying);
      var i := 0;
      while i < |rearms|
        invariant i <= |rearms| && Applied(cfg, View(Applying), rearms[i..]) == Applied(cfg, start, rearms)
      {
        assert rearms[i..][0] == rearms[i] && rearms[i..][1..] == rearms[i + 1..];
        ApplyOne(rearms[i]);
        i := i + 1;
      }
      if Targets(s, s.pending) {
        ApplyRearms(cfg, start, s.pending);
        RearmedFrom(start, s.(pending := []), View(Applying), s.pending);
      }
    }

    method ApplyOne(r: Rearm)
      modifies this
      ensures View(Applying) == Finish(cfg, ApplyRearm(old(View(Applying)), r))
    {
      var fd := r.tok.fd;
      if fd !in connections { return; }
      match r.action
      case WaitReadable => armed := armed[fd := Armed(connections[fd], WaitReadable)];
      case WaitWritable => armed := armed[fd := Armed(connections[fd], WaitWritable)];
      case Close =>
        armed := armed - {fd};
        Discard(fd);
    }

    /** A new connection in the table, armed to be readable. */
    method Register(fd: nat)
      modifies this
      ensures View(Dispatching) == AcceptedOne(old(View(Dispatching)), fd)
    {
      connections := connections[fd := nextId];
      heap := heap[nextId := NEW_CONN];
      history := history[nextId := []];
      armed := armed[fd := Armed(nextId, WaitReadable)];
      nextId := nextId + 1;
      open := open + {fd};
    }

    /** `handleAccept`: one pass per answer of `accept`. */
    method HandleAccept(fds: seq<nat>)
      modifies this
      ensures View(Dispatching) == Accepted(cfg, old(View(Dispatching)), fds)
      ensures NewDescriptors(cfg, old(open), fds) ==> Entered(old(View(Dispatching)), View(Dispatching), fds)
    {
      if NewDescriptors(cfg, open, fds) {
        AcceptEnters(cfg, View(Dispatching), fds);
      }
      var i := 0;
      while i < |fds|
        invariant i <= |fds| && Accepted(cfg, View(Dispatching), fds[i..]) == Accepted(cfg, old(View(Dispatching)), fds)
      {
        assert fds[i..][0] == fds[i] && fds[i..][1..] == fds[i + 1..];
        var fd := fds[i];
        if fd in open || fd == cfg.listenFd { break; }
        Register(fd);
        i := i + 1;
      }
    }

    /** The body of the event loop for one event. */
    method HandleEvent(ev: Event, fds: seq<nat>)
      modifies this
      ensures View(Dispatching) == Handled(cfg, old(View(Dispatching)), ev, fds)
      ensures Sane(cfg, old(View(Dispatching))) && (ev.fd == cfg.listenFd || ev.fd in old(connections)) ==>
        Processed(cfg, old(View(Dispatching)), View(Dispatching), [ev])
    {
      if Sane(cfg, View(Dispatching)) && (ev.fd == cfg.listenFd || ev.fd in connections) {
        HandledOne(cfg, View(Dispatching), ev, fds);
      }
      if ev.fd == cfg.listenFd {
        HandleAccept(fds);
        return;
      }
      if ev.fd !in connections { return; }
      armed := armed - {ev.fd};
      if ev.error {
        Discard(ev.fd);
      } else {
        queue := queue + [Tok(ev.fd, connections[ev.fd])];
      }
    }

    /** One turn of `reactorLoop`: apply the re-arms, wait, process the batch. */
    method Turn(events: seq<Event>, fds: seq<nat>)
      modifies this
      ensures View(Top) == Turned(cfg, old(View(Top)), events, fds)
      ensures Inv(cfg, old(View(Top))) && !cfg.hangups ==>
        exists mid :: TurnDone(cfg, old(View(Top)), mid, View(Top), events, fds)
    {
      if Inv(cfg, View(Top)) && !cfg.hangups {
        TurnDoes(cfg, View(Top), events, fds);
      }
      ApplyPendingRearms();
      var ready := Delivered(cfg, View(Applying), events);
      ghost var start := View(Dispatching);
      var i := 0;
      while i < |ready|
        invariant i <= |ready|
        invariant Dispatched(cfg, View(Dispatching), ready[i..], fds) == Dispatched(cfg, start, ready, fds)
      {
        assert ready[i..][0] == ready[i] && ready[i..][1..] == ready[i + 1..];
        HandleEvent(ready[i], fds);
        i := i + 1;
      }
    }

    /** `handleClientEvent` or `handleConnectionEvent` for the first queued task: look the
        connection up, serve it, post the re-arm. */
    method RunTask(env: Env)
      requires queue != [] && TaskReady(View(Top), queue[0])
      modifies this`queue, this`heap, this`history, this`pending
      ensures View(Top) == Worked(cfg, old(View(Top)), env)
      ensures TaskDone(cfg, old(View(Top)), View(Top), env)
    {
      var tok := queue[0];
      queue := queue[1..];
      if tok.fd !in connections { return; }
      var id := connections[tok.fd];
      var o := Handle(cfg.app, heap[id], env);
      heap, history := heap[id := o.conn], history[id := history[id] + [o.entry]];
      PostRearm(tok, o.entry.action);
    }
  }
}
