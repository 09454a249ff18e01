/** What a turn of the reactor's loop and a task of a worker do, and that each is a run of the
    step system, so that everything proved about its reachable states holds after it. */
module Turns {
  import opened Text
  import opened Workers
  import opened Handoff
  import opened HandoffOwnership
  import opened HandoffSafety
  import opened HandoffHangups
  import Seqs

  /** Some interleaving leads from `s` to `t`. */
  ghost predicate RunsTo(cfg: Config, s: State, t: State) {
    exists labels :: Run(cfg, s, labels) == Some(t)
  }

  lemma RunsToRefl(cfg: Config, s: State)
    ensures RunsTo(cfg, s, s)
  {
    assert Run(cfg, s, []) == Some(s);
  }

  lemma RunsToStep(cfg: Config, s: State, t: State, l: Label, u: State)
    requires RunsTo(cfg, s, t) && Step(cfg, t, l) == Some(u)
    ensures RunsTo(cfg, s, u)
  {
    var labels :| Run(cfg, s, labels) == Some(t);
    RunSnoc(cfg, s, labels, l);
  }

  /** Ownership survives whatever the loops below do. */
  lemma RunsToKeeps(cfg: Config, s: State, t: State)
    requires Inv(cfg, s) && !cfg.hangups && RunsTo(cfg, s, t)
    ensures Inv(cfg, t)
  {
    var labels :| Run(cfg, s, labels) == Some(t);
    RunKeeps(cfg, s, labels);
  }

  // ---------------------------------------------------------------------------------
  // What a turn of the loop does
  // ---------------------------------------------------------------------------------

  /** The second half of a step that leaves a connection in the reactor's hand. */
  function Finish(cfg: Config, s: State): State {
    match s.pc
    case Erasing(_, _) => ReactorStep(cfg, s, Erase).value
    case Enqueuing(_) => ReactorStep(cfg, s, Enqueue).value
    case _ => s
  }

  /** The swapped re-arms, applied in order. */
  function Applied(cfg: Config, s: State, rearms: seq<Rearm>): State
    decreases |rearms|
  {
    if rearms == [] then s
    else Applied(cfg, Finish(cfg, ApplyRearm(s, rearms[0])), rearms[1..])
  }

  /** The table after one accepted connection. */
  function AcceptedOne(s: State, fd: nat): State {
    s.(connections := s.connections[fd := s.nextId], heap := s.heap[s.nextId := NEW_CONN],
       history := s.history[s.nextId := []], nextId := s.nextId + 1,
       armed := s.armed[fd := Armed(s.nextId, WaitReadable)], open := s.open + {fd})
  }

  /** The connections that `accept` yields: new identities, armed to be readable. An answer
      that names an open descriptor, which the kernel never gives, counts as would-block. */
  function Accepted(cfg: Config, s: State, fds: seq<nat>): State
    decreases |fds|
  {
    if fds == [] || fds[0] in s.open || fds[0] == cfg.listenFd then s
    else Accepted(cfg, AcceptedOne(s, fds[0]), fds[1..])
  }

  function Handled(cfg: Config, s: State, ev: Event, fds: seq<nat>): State {
    if ev.fd == cfg.listenFd then Accepted(cfg, s, fds) else Finish(cfg, DispatchEvent(cfg, s, ev))
  }

  /** The event batch, processed in order. */
  function Dispatched(cfg: Config, s: State, events: seq<Event>, fds: seq<nat>): State
    decreases |events|
  {
    if events == [] then s else Dispatched(cfg, Handled(cfg, s, events[0], fds), events[1..], fds)
  }

  /** What `wait` delivers; an answer the event loop cannot give counts as a timeout. */
  function Delivered(cfg: Config, s: State, events: seq<Event>): seq<Event> {
    if Plausible(cfg, s, events) then events else []
  }

  /** One turn of `reactorLoop`, from the top back to the top. */
  function Turned(cfg: Config, s: State, events: seq<Event>, fds: seq<nat>): State {
    var applied := Applied(cfg, s.(pending := [], pc := Applying), s.pending);
    Dispatched(cfg, applied.(pc := Dispatching), Delivered(cfg, applied, events), fds).(pc := Top)
  }

  // ---------------------------------------------------------------------------------
  // A turn is a run of the step system
  // ---------------------------------------------------------------------------------

  lemma TakeRearm(cfg: Config, before: State, s: State, r: Rearm, rest: seq<Rearm>)
    requires s.pc == Applying && RunsTo(cfg, before, s.(batch := [r] + rest))
    ensures RunsTo(cfg, before, ApplyRearm(s, r).(batch := rest))
  {
    var here := s.(batch := [r] + rest);
    assert here.batch[0] == r && here.batch[1..] == rest;
    var there := ApplyRearm(s, r).(batch := rest);
    assert there == ApplyRearm(here.(batch := rest), r);
    RunsToStep(cfg, before, here, ApplyNext, there);
  }

  /** The first re-arm of the batch is applied by steps of the system. */
  lemma AppliedOneRuns(cfg: Config, before: State, s: State, r: Rearm, rest: seq<Rearm>)
    requires s.pc == Applying && RunsTo(cfg, before, s.(batch := [r] + rest))
    ensures var after := Finish(cfg, ApplyRearm(s, r));
      after.pc == Applying && RunsTo(cfg, before, after.(batch := rest))
  {
    TakeRearm(cfg, before, s, r, rest);
    var next := ApplyRearm(s, r);
    if next.pc.Erasing? {
      RunsToStep(cfg, before, next.(batch := rest), Erase, Finish(cfg, next).(batch := rest));
    }
  }

  lemma {:induction false} AppliedRuns(cfg: Config, before: State, s: State, rearms: seq<Rearm>)
    requires s.pc == Applying && RunsTo(cfg, before, s.(batch := rearms))
    ensures Applied(cfg, s, rearms).pc == Applying
    ensures RunsTo(cfg, before, Applied(cfg, s, rearms).(batch := []))
    decreases |rearms|
  {
    if rearms != [] {
      assert rearms == [rearms[0]] + rearms[1..];
      AppliedOneRuns(cfg, before, s, rearms[0], rearms[1..]);
      AppliedRuns(cfg, before, Finish(cfg, ApplyRearm(s, rearms[0])), rearms[1..]);
    }
  }

  lemma AcceptedOneRuns(cfg: Config, before: State, s: State, fd: nat)
    requires s.pc == Accepting && fd !in s.open && fd != cfg.listenFd && RunsTo(cfg, before, s)
    ensures RunsTo(cfg, before, AcceptedOne(s, fd))
  {
    var id := s.nextId;
    var added := AcceptedOne(s, fd).(armed := s.armed, pc := Adding(Tok(fd, id)));
    RunsToStep(cfg, before, s, Accept(fd), added);
    RunsToStep(cfg, before, added, Add, AcceptedOne(s, fd));
  }

  lemma {:induction false} AcceptedRuns(cfg: Config, before: State, s: State, events: seq<Event>, fds: seq<nat>)
    requires RunsTo(cfg, before, s.(pc := Accepting, events := events))
    ensures RunsTo(cfg, before, Accepted(cfg, s, fds).(pc := Accepting, events := events))
    ensures Accepted(cfg, s, fds).pc == s.pc
    decreases |fds|
  {
    if fds != [] && fds[0] !in s.open && fds[0] != cfg.listenFd {
      AcceptedOneRuns(cfg, before, s.(pc := Accepting, events := events), fds[0]);
      AcceptedRuns(cfg, before, AcceptedOne(s, fds[0]), events, fds[1..]);
    }
  }

  lemma TakeFirst(cfg: Config, before: State, s: State, ev: Event, rest: seq<Event>)
    requires s.pc == Dispatching && RunsTo(cfg, before, s.(events := [ev] + rest))
    ensures RunsTo(cfg, before, DispatchEvent(cfg, s, ev).(events := rest))
  {
    var here := s.(events := [ev] + rest);
    assert here.events[0] == ev && here.events[1..] == rest;
    var there := DispatchEvent(cfg, s, ev).(events := rest);
    assert there == DispatchEvent(cfg, here.(events := rest), ev);
    RunsToStep(cfg, before, here, DispatchNext, there);
  }

  lemma FinishRuns(cfg: Config, before: State, s: State, rest: seq<Event>)
    requires RunsTo(cfg, before, s.(events := rest))
    ensures RunsTo(cfg, before, Finish(cfg, s).(events := rest))
  {
    var there, after := s.(events := rest), Finish(cfg, s).(events := rest);
    if s.pc.Erasing? {
      RunsToStep(cfg, before, there, Erase, after);
    } else if s.pc.Enqueuing? {
      RunsToStep(cfg, before, there, Enqueue, after);
    }
  }

  lemma ListenRuns(cfg: Config, before: State, s: State, rest: seq<Event>, fds: seq<nat>)
    requires s.pc == Dispatching && RunsTo(cfg, before, s.(pc := Accepting, events := rest))
    ensures Accepted(cfg, s, fds).pc == Dispatching
    ensures RunsTo(cfg, before, Accepted(cfg, s, fds).(events := rest))
  {
    AcceptedRuns(cfg, before, s, rest, fds);
    var accepted := Accepted(cfg, s, fds);
    RunsToStep(cfg, before, accepted.(pc := Accepting, events := rest), AcceptDone, accepted.(events := rest));
  }

  lemma FinishedDispatch(cfg: Config, s: State, ev: Event)
    requires s.pc == Dispatching && ev.fd != cfg.listenFd
    ensures Finish(cfg, DispatchEvent(cfg, s, ev)).pc == Dispatching
  {
  }

  /** One event is handled by steps of the system. */
  lemma HandledRuns(cfg: Config, before: State, s: State, ev: Event, rest: seq<Event>, fds: seq<nat>)
    requires s.pc == Dispatching && RunsTo(cfg, before, s.(events := [ev] + rest))
    ensures Handled(cfg, s, ev, fds).pc == Dispatching
    ensures RunsTo(cfg, before, Handled(cfg, s, ev, fds).(events := rest))
  {
    TakeFirst(cfg, before, s, ev, rest);
    if ev.fd == cfg.listenFd {
      ListenRuns(cfg, before, s, rest, fds);
    } else {
      FinishRuns(cfg, before, DispatchEvent(cfg, s, ev), rest);
      FinishedDispatch(cfg, s, ev);
    }
  }

  lemma {:induction false} DispatchedRuns(cfg: Config, before: State, s: State, events: seq<Event>, fds: seq<nat>)
    requires s.pc == Dispatching && RunsTo(cfg, before, s.(events := events))
    ensures Dispatched(cfg, s, events, fds).pc == Dispatching
    ensures RunsTo(cfg, before, Dispatched(cfg, s, events, fds).(events := []))
    decreases |events|
  {
    if events != [] {
      assert events == [events[0]] + events[1..];
      HandledRuns(cfg, before, s, events[0], events[1..], fds);
      DispatchedRuns(cfg, before, Handled(cfg, s, events[0], fds), events[1..], fds);
    }
  }

  lemma {:induction false} TurnsKeepLocals(cfg: Config, s: State, rearms: seq<Rearm>)
    requires s.batch == [] && s.events == []
    ensures Applied(cfg, s, rearms).batch == [] && Applied(cfg, s, rearms).events == []
    decreases |rearms|
  {
    if rearms != [] {
      TurnsKeepLocals(cfg, Finish(cfg, ApplyRearm(s, rearms[0])), rearms[1..]);
    }
  }

  lemma {:induction false} AcceptedKeepsEvents(cfg: Config, s: State, fds: seq<nat>)
    ensures Accepted(cfg, s, fds).events == s.events && Accepted(cfg, s, fds).batch == s.batch
    decreases |fds|
  {
    if fds != [] && fds[0] !in s.open && fds[0] != cfg.listenFd {
      AcceptedKeepsEvents(cfg, AcceptedOne(s, fds[0]), fds[1..]);
    }
  }

  lemma HandledKeepsEvents(cfg: Config, s: State, ev: Event, fds: seq<nat>)
    ensures Handled(cfg, s, ev, fds).events == s.events && Handled(cfg, s, ev, fds).batch == s.batch
  {
    AcceptedKeepsEvents(cfg, s, fds);
  }

  lemma {:induction false} DispatchedKeepsEvents(cfg: Config, s: State, events: seq<Event>, fds: seq<nat>)
    ensures Dispatched(cfg, s, events, fds).events == s.events && Dispatched(cfg, s, events, fds).batch == s.batch
    decreases |events|
  {
    if events != [] {
      HandledKeepsEvents(cfg, s, events[0], fds);
      DispatchedKeepsEvents(cfg, Handled(cfg, s, events[0], fds), events[1..], fds);
    }
  }

  /** Every turn of the reactor's loop is a run of the step system, whatever the event loop
      and `accept` answer, so the invariants of the step system hold after it. */
  lemma TurnRuns(cfg: Config, s: State, events: seq<Event>, fds: seq<nat>)
    requires s.pc == Top && s.batch == [] && s.events == []
    ensures RunsTo(cfg, s, Turned(cfg, s, events, fds))
    ensures !cfg.hangups && Inv(cfg, s) ==> Inv(cfg, Turned(cfg, s, events, fds))
  {
    RunsToRefl(cfg, s);
    var start := s.(pending := [], pc := Applying);
    RunsToStep(cfg, s, s, Swap, start.(batch := s.pending));
    AppliedRuns(cfg, s, start, s.pending);
    TurnsKeepLocals(cfg, start, s.pending);
    var applied := Applied(cfg, start, s.pending);
    var ready := Delivered(cfg, applied, events);
    RunsToStep(cfg, s, applied, Wait(ready), applied.(pc := Dispatching, events := ready));
    DispatchedRuns(cfg, s, applied.(pc := Dispatching), ready, fds);
    DispatchedKeepsEvents(cfg, applied.(pc := Dispatching), ready, fds);
    var done := Dispatched(cfg, applied.(pc := Dispatching), ready, fds);
    RunsToStep(cfg, s, done, Loop, done.(pc := Top));
    if !cfg.hangups && Inv(cfg, s) {
      RunsToKeeps(cfg, s, Turned(cfg, s, events, fds));
    }
  }

  // ---------------------------------------------------------------------------------
  // One task of a worker
  // ---------------------------------------------------------------------------------

  /** What a worker looks up is there and well formed. */
  predicate TaskReady(s: State, tok: Tok) {
    tok.fd in s.connections ==>
      var id := s.connections[tok.fd];
      id in s.heap && id in s.history && WellFormed(s.heap[id])
  }

  /** The first queued task, carried out from lookup to post. */
  function Worked(cfg: Config, s: State, env: Env): State
    requires s.queue != [] && TaskReady(s, s.queue[0])
  {
    var tok, rest := s.queue[0], s.(queue := s.queue[1..]);
    if tok.fd !in s.connections then rest
    else
      var id := s.connections[tok.fd];
      var o := Handle(cfg.app, s.heap[id], env);
      rest.(heap := s.heap[id := o.conn], history := s.history[id := s.history[id] + [o.entry]],
            pending := s.pending + [Rearm(tok, o.entry.action)])
  }

  /** What carrying out the first queued task has done: if its connection is there, it is what
      the call made of it, its history has the call's entry, and the action is posted for it
      and for no other; nothing else has changed. */
  ghost predicate TaskDone(cfg: Config, s: State, t: State, env: Env)
    requires s.queue != [] && TaskReady(s, s.queue[0])
  {
    var tok := s.queue[0];
    && t.queue == s.queue[1..] && t.connections == s.connections && t.armed == s.armed && t.running == s.running
    && (tok.fd in s.connections ==>
          var id := s.connections[tok.fd];
          var o := Handle(cfg.app, s.heap[id], env);
          && t.heap.Keys == s.heap.Keys && t.heap[id] == o.conn && (forall k :: k in s.heap && k != id ==> t.heap[k] == s.heap[k])
          && id in t.history && t.history[id] == s.history[id] + [o.entry]
          && t.pending == s.pending + [Rearm(tok, o.entry.action)])
  }

  lemma WorkedIsDone(cfg: Config, s: State, env: Env)
    requires s.queue != [] && TaskReady(s, s.queue[0])
    ensures TaskDone(cfg, s, Worked(cfg, s, env), env)
  {
  }

  lemma TakeLast(running: seq<Worker>, w: Worker, w': Worker)
    ensures (running + [w])[|running| := w'] == running + [w']
    ensures Seqs.Remove(running + [w], |running|) == running
  {
  }

  /** Up to the call. */
  lemma TaskTaken(cfg: Config, s: State)
    requires s.queue != [] && |s.running| < cfg.workers && s.queue[0].fd in s.connections
    ensures var tok := s.queue[0];
      RunsTo(cfg, s, s.(queue := s.queue[1..], running := s.running + [Worker(tok, Holding(s.connections[tok.fd]))]))
  {
    var tok, rest := s.queue[0], s.(queue := s.queue[1..]);
    var w, w' := Worker(tok, Dequeued), Worker(tok, Holding(s.connections[tok.fd]));
    TakeLast(s.running, w, w');
    RunsToRefl(cfg, s);
    var taken := rest.(running := s.running + [w]);
    RunsToStep(cfg, s, s, Take, taken);
    RunsToStep(cfg, s, taken, Lookup(|s.running|), rest.(running := s.running + [w']));
  }

  lemma TaskCalled(cfg: Config, before: State, s: State, tok: Tok, id: nat, env: Env, o: Outcome)
    requires RunsTo(cfg, before, s.(running := s.running + [Worker(tok, Holding(id))]))
    requires id in s.heap && id in s.history && WellFormed(s.heap[id]) && o == Handle(cfg.app, s.heap[id], env)
    ensures RunsTo(cfg, before, s.(heap := s.heap[id := o.conn], history := s.history[id := s.history[id] + [o.entry]],
                                   pending := s.pending + [Rearm(tok, o.entry.action)]))
  {
    var n := |s.running|;
    var w, w' := Worker(tok, Holding(id)), Worker(tok, Finished(o.entry.action));
    TakeLast(s.running, w, w');
    TakeLast(s.running, w', w');
    var called := s.(heap := s.heap[id := o.conn], history := s.history[id := s.history[id] + [o.entry]]);
    var holding, finished := s.(running := s.running + [w]), called.(running := s.running + [w']);
    RunsToStep(cfg, before, holding, Act(n, env), finished);
    RunsToStep(cfg, before, finished, Post(n), called.(pending := s.pending + [Rearm(tok, o.entry.action)]));
  }

  /** A worker's task is a run of the step system. */
  lemma WorkedRuns(cfg: Config, s: State, env: Env)
    requires s.queue != [] && TaskReady(s, s.queue[0]) && |s.running| < cfg.workers
    ensures RunsTo(cfg, s, Worked(cfg, s, env))
  {
    var tok, rest := s.queue[0], s.(queue := s.queue[1..]);
    if tok.fd in s.connections {
      var id := s.connections[tok.fd];
      TaskTaken(cfg, s);
      TaskCalled(cfg, s, rest, tok, id, env, Handle(cfg.app, s.heap[id], env));
    } else {
      var w := Worker(tok, Dequeued);
      TakeLast(s.running, w, w);
      RunsToRefl(cfg, s);
      RunsToStep(cfg, s, s, Take, rest.(running := s.running + [w]));
      RunsToStep(cfg, s, rest.(running := s.running + [w]), Lookup(|s.running|), rest);
    }
  }

  /** In every reachable state every queued task finds its connection. */
  lemma TasksAreReady(cfg: Config, s: State, tok: Tok)
    requires Reachable(cfg, s) && !cfg.hangups && tok in s.queue
    ensures tok.fd in s.connections && TaskReady(s, tok)
  {
    ReachableSafe(cfg, s);
    OneTokenEach(cfg, s);
    PlacesInBag(s);
    assert ReadyId(cfg, s, tok.id);
  }
}
