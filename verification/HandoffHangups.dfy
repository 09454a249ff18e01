/** The one assumption ownership rests on, and that it cannot be dropped: a disarmed
    descriptor must not be reported.  epoll reports hangups on it all the same. */
module HandoffHangups {
  import opened Text
  import opened Workers
  import opened Handoff
  import opened HandoffOwnership
  import opened HandoffSafety

  /** Every pointer a worker holds is to a connection that still exists. */
  ghost predicate NoDangling(s: State) {
    forall i :: 0 <= i < |s.running| && s.running[i].stage.Holding? ==> s.running[i].stage.conn in s.heap
  }

  /** Processing an event for a live connection keeps ownership exactly when the descriptor
      is armed. */
  lemma DispatchNeedsArming(cfg: Config, s: State, ev: Event)
    requires Owned(s) && s.pc == Dispatching && ev.fd != cfg.listenFd && ev.fd in s.connections
    ensures Owned(DispatchEvent(cfg, s, ev)) <==> ev.fd in s.armed
  {
    if ev.fd in s.armed {
      DispatchOwned(cfg, s, ev, DispatchEvent(cfg, s, ev));
    } else {
      var t := DispatchEvent(cfg, s, ev);
      var tok := Tok(ev.fd, s.connections[ev.fd]);
      assert s.armed - {ev.fd} == s.armed;
      assert Tokens(t) == Tokens(s) + multiset{tok};
      assert tok in Pairs(s.connections);
      assert Tokens(t)[tok] == 2 && multiset(Pairs(t.connections))[tok] == 1;
    }
  }

  // ---------------------------------------------------------------------------------
  // A run that ends in a dangling pointer
  // ---------------------------------------------------------------------------------

  lemma {:induction false} RunSnoc(cfg: Config, s: State, labels: seq<Label>, l: Label)
    requires Run(cfg, s, labels).Some?
    ensures Run(cfg, s, labels + [l]) == Step(cfg, Run(cfg, s, labels).value, l)
    decreases |labels|
  {
    if labels == [] {
      assert (labels + [l])[1..] == [];
    } else {
      assert (labels + [l])[1..] == labels[1..] + [l];
      RunSnoc(cfg, Step(cfg, s, labels[0]).value, labels[1..], l);
    }
  }

  lemma ReachStep(cfg: Config, s: State, l: Label, t: State)
    requires Reachable(cfg, s) && Step(cfg, s, l) == Some(t)
    ensures Reachable(cfg, t)
  {
    var labels :| Run(cfg, INIT, labels) == Some(s);
    RunSnoc(cfg, INIT, labels, l);
  }

  /** One connection, number 0 on descriptor `fd`, and the reactor at the top of its loop. */
  function OneConnection(fd: nat): State {
    State(map[fd := 0], map[0 := NEW_CONN], map[0 := []], 1, map[fd := Armed(0, WaitReadable)],
          [], [], [], Top, [], [], {fd})
  }

  /** The same connection with a worker that holds it. */
  function WorkerHolds(fd: nat): State {
    OneConnection(fd).(armed := map[], running := [Worker(Tok(fd, 0), Holding(0))])
  }

  lemma ReachAccepting(cfg: Config)
    ensures Reachable(cfg, INIT.(pc := Accepting))
  {
    assert Run(cfg, INIT, []) == Some(INIT);
    var s1 := INIT.(pc := Applying);
    ReachStep(cfg, INIT, Swap, s1);
    var ready := Event(cfg.listenFd, false);
    var s2 := s1.(events := [ready], pc := Dispatching);
    ReachStep(cfg, s1, Wait([ready]), s2);
    assert [ready][1..] == [];
    ReachStep(cfg, s2, DispatchNext, INIT.(pc := Accepting));
  }

  lemma AcceptOne(cfg: Config, fd: nat)
    requires fd != cfg.listenFd
    ensures Reachable(cfg, OneConnection(fd))
  {
    ReachAccepting(cfg);
    var one := OneConnection(fd);
    var s4 := one.(armed := map[], pc := Adding(Tok(fd, 0)));
    assert {} + {fd} == {fd};
    ReachStep(cfg, INIT.(pc := Accepting), Accept(fd), s4);
    ReachStep(cfg, s4, Add, one.(pc := Accepting));
    ReachStep(cfg, one.(pc := Accepting), AcceptDone, one.(pc := Dispatching));
    ReachStep(cfg, one.(pc := Dispatching), Loop, one);
  }

  /** The reactor takes one event for the armed connection. */
  lemma TakeEvent(cfg: Config, fd: nat)
    requires fd != cfg.listenFd
    ensures Reachable(cfg, OneConnection(fd).(armed := map[], pc := Enqueuing(Tok(fd, 0))))
  {
    AcceptOne(cfg, fd);
    var one := OneConnection(fd);
    var ready := Event(fd, false);
    var s1 := one.(pc := Applying);
    ReachStep(cfg, one, Swap, s1);
    var s2 := s1.(events := [ready], pc := Dispatching);
    ReachStep(cfg, s1, Wait([ready]), s2);
    assert [ready][1..] == [] && one.armed - {fd} == map[];
    ReachStep(cfg, s2, DispatchNext, one.(armed := map[], pc := Enqueuing(Tok(fd, 0))));
  }

  lemma EnqueueOne(cfg: Config, fd: nat)
    requires fd != cfg.listenFd
    ensures Reachable(cfg, OneConnection(fd).(armed := map[], queue := [Tok(fd, 0)]))
  {
    TakeEvent(cfg, fd);
    var s3 := OneConnection(fd).(armed := map[], pc := Enqueuing(Tok(fd, 0)));
    var s4 := s3.(queue := [Tok(fd, 0)], pc := Dispatching);
    assert s3.queue + [Tok(fd, 0)] == [Tok(fd, 0)];
    ReachStep(cfg, s3, Enqueue, s4);
    ReachStep(cfg, s4, Loop, s4.(pc := Top));
  }

  lemma DispatchOne(cfg: Config, fd: nat)
    requires fd != cfg.listenFd && cfg.workers > 0
    ensures Reachable(cfg, WorkerHolds(fd))
  {
    EnqueueOne(cfg, fd);
    var off := OneConnection(fd).(armed := map[]);
    var s1 := off.(queue := [Tok(fd, 0)]);
    var w := Worker(Tok(fd, 0), Dequeued);
    var s2 := off.(running := [w]);
    assert s1.queue[1..] == [] && s1.running + [w] == [w];
    ReachStep(cfg, s1, Take, s2);
    var w' := Worker(Tok(fd, 0), Holding(0));
    assert s2.running[0 := w'] == [w'];
    ReachStep(cfg, s2, Lookup(0), WorkerHolds(fd));
  }

  /** While the worker holds the connection, a hangup reaches the reactor. */
  lemma HangupArrives(cfg: Config, fd: nat)
    requires fd != cfg.listenFd && cfg.workers > 0 && cfg.hangups
    ensures Reachable(cfg, WorkerHolds(fd).(pc := Erasing(Tok(fd, 0), false)))
  {
    DispatchOne(cfg, fd);
    var held := WorkerHolds(fd);
    var hangup := Event(fd, true);
    var s1 := held.(pc := Applying);
    ReachStep(cfg, held, Swap, s1);
    var s2 := s1.(events := [hangup], pc := Dispatching);
    ReachStep(cfg, s1, Wait([hangup]), s2);
    assert [hangup][1..] == [] && held.armed - {fd} == map[];
    ReachStep(cfg, s2, DispatchNext, held.(pc := Erasing(Tok(fd, 0), false)));
  }

  /** The reactor then destroys the connection under the worker's hands. */
  lemma HangupDestroys(cfg: Config, fd: nat) returns (s: State)
    requires fd != cfg.listenFd && cfg.workers > 0 && cfg.hangups
    ensures Reachable(cfg, s) && !NoDangling(s)
  {
    HangupArrives(cfg, fd);
    var held := WorkerHolds(fd);
    s := held.(connections := held.connections - {fd}, heap := held.heap - {0}, open := held.open - {fd}, pc := Dispatching);
    ReachStep(cfg, held.(pc := Erasing(Tok(fd, 0), false)), Erase, s);
    assert s.running[0].stage.Holding? && 0 !in s.heap;
  }

  /** The exact condition: no reachable state has a worker with a dangling pointer if and only
      if the event loop never reports a disarmed descriptor. */
  lemma SafeExactlyWithoutHangups(cfg: Config)
    requires cfg.workers > 0
    ensures (forall s :: Reachable(cfg, s) ==> NoDangling(s)) <==> !cfg.hangups
  {
    if cfg.hangups {
      var s := HangupDestroys(cfg, cfg.listenFd + 1);
    } else {
      forall s | Reachable(cfg, s)
        ensures NoDangling(s)
      {
        forall i | 0 <= i < |s.running| && s.running[i].stage.Holding?
          ensures s.running[i].stage.conn in s.heap
        {
          NoDanglingPointer(cfg, s, i, Env(Again, NoneHealthy, BAD_REQUEST, []));
        }
      }
    }
  }
}
