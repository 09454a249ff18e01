/** The tables after the reactor's loops, entry by entry.

    That a loop is a run of the step system says what it cannot do, not what it does: doing
    nothing is a run too.  Here each loop is compared with what it is for.  Accepting makes
    every descriptor it is given a new connection that waits to be read.  Applying the posted
    re-arms leaves each connection armed as asked or gone.  Processing a batch of events
    disarms and queues the connections that are ready, in the order of the batch, removes the
    failed ones, and accepts if the listening socket is among them.  In each case all other
    entries of all tables are what they were.  The statements are about the tables alone and
    name none of the functions that compute them; the lemmas say that these functions meet
    them, and the methods of the reactor promise them. */
module TurnEffects {
  import opened Text
  import opened Workers
  import opened Handoff
  import opened HandoffOwnership
  import opened Turns
  import Seqs

  // ---------------------------------------------------------------------------------
  // Entries that stay
  // ---------------------------------------------------------------------------------

  /** Table and event loop say the same about descriptor `fd` in both states. */
  ghost predicate SameAt(s: State, t: State, fd: nat) {
    && (fd in s.connections <==> fd in t.connections) && (fd in s.connections ==> t.connections[fd] == s.connections[fd])
    && (fd in s.armed <==> fd in t.armed) && (fd in s.armed ==> t.armed[fd] == s.armed[fd])
  }

  /** Connection `id` is the same in both states. */
  ghost predicate SameConn(s: State, t: State, id: nat) {
    && (id in s.heap <==> id in t.heap) && (id in s.heap ==> t.heap[id] == s.heap[id])
    && (id in s.history <==> id in t.history) && (id in s.history ==> t.history[id] == s.history[id])
  }

  /** What no loop of the reactor touches. */
  ghost predicate SameElsewhere(s: State, t: State) {
    s.running == t.running && s.pending == t.pending && s.batch == t.batch && s.events == t.events
  }

  // ---------------------------------------------------------------------------------
  // Accepting
  // ---------------------------------------------------------------------------------

  /** What `accept` yields: distinct descriptors that were not open. */
  ghost predicate NewDescriptors(cfg: Config, open: set<nat>, fds: seq<nat>) {
    && (forall i :: 0 <= i < |fds| ==> fds[i] != cfg.listenFd && fds[i] !in open)
    && forall i, j :: 0 <= i < j < |fds| ==> fds[i] != fds[j]
  }

  /** Descriptor `fd` is the new connection `id`, armed to be readable. */
  ghost predicate NewConnection(t: State, fd: nat, id: nat) {
    && fd in t.connections && t.connections[fd] == id && fd in t.open
    && id in t.heap && t.heap[id] == NEW_CONN && id in t.history && t.history[id] == []
    && fd in t.armed && t.armed[fd] == Armed(id, WaitReadable)
  }

  /** Each of the descriptors has become a new connection, numbered in order, and every other
      entry is what it was. */
  ghost predicate Entered(s: State, t: State, fds: seq<nat>) {
    && t.nextId == s.nextId + |fds|
    && (forall i :: 0 <= i < |fds| ==> NewConnection(t, fds[i], s.nextId + i))
    && (forall fd :: fd !in fds ==> SameAt(s, t, fd) && (fd in s.open <==> fd in t.open))
    && (forall id: nat :: id < s.nextId || s.nextId + |fds| <= id ==> SameConn(s, t, id))
    && t.queue == s.queue && SameElsewhere(s, t)
  }

  lemma EnteredOne(s: State, fd: nat)
    ensures Entered(s, AcceptedOne(s, fd), [fd])
  {
  }

  lemma EnteredMore(s: State, u: State, t: State, fds: seq<nat>)
    requires fds != [] && Entered(s, u, fds[..1]) && Entered(u, t, fds[1..])
    requires forall i, j :: 0 <= i < j < |fds| ==> fds[i] != fds[j]
    ensures Entered(s, t, fds)
  {
    forall i | 0 <= i < |fds|
      ensures NewConnection(t, fds[i], s.nextId + i)
    {
      if i == 0 {
        assert NewConnection(u, fds[..1][0], s.nextId + 0);
        assert fds[0] !in fds[1..];
        assert SameAt(u, t, fds[0]) && SameConn(u, t, s.nextId);
      } else {
        assert NewConnection(t, fds[1..][i - 1], u.nextId + (i - 1));
      }
    }
    forall fd | fd !in fds
      ensures SameAt(s, t, fd) && (fd in s.open <==> fd in t.open)
    {
      assert fd !in fds[..1] && fd !in fds[1..];
      assert SameAt(s, u, fd) && SameAt(u, t, fd);
    }
    forall id: nat | id < s.nextId || s.nextId + |fds| <= id
      ensures SameConn(s, t, id)
    {
      assert SameConn(s, u, id) && SameConn(u, t, id);
    }
  }

  /** Accepting enters exactly what `accept` yields. */
  lemma {:induction false} AcceptEnters(cfg: Config, s: State, fds: seq<nat>)
    requires NewDescriptors(cfg, s.open, fds)
    ensures Entered(s, Accepted(cfg, s, fds), fds)
    decreases |fds|
  {
    if fds != [] {
      var u := AcceptedOne(s, fds[0]);
      EnteredOne(s, fds[0]);
      assert fds[..1] == [fds[0]];
      AcceptEnters(cfg, u, fds[1..]);
      EnteredMore(s, u, Accepted(cfg, u, fds[1..]), fds);
    }
  }

  // ---------------------------------------------------------------------------------
  // Applying the re-arms
  // ---------------------------------------------------------------------------------

  /** The re-arms are for distinct live connections. */
  ghost predicate Targets(s: State, rearms: seq<Rearm>) {
    && Injective(s.connections)
    && (forall i :: 0 <= i < |rearms| ==>
          rearms[i].tok.fd in s.connections && s.connections[rearms[i].tok.fd] == rearms[i].tok.id)
    && forall i, j :: 0 <= i < j < |rearms| ==> rearms[i].tok.fd != rearms[j].tok.fd
  }

  /** The re-arm has had its effect: the connection is armed as asked, or it is gone. */
  ghost predicate RearmDone(t: State, r: Rearm) {
    if r.action == Close then
      r.tok.fd !in t.connections && r.tok.fd !in t.armed && r.tok.fd !in t.open && r.tok.id !in t.heap
    else
      && r.tok.fd in t.connections && t.connections[r.tok.fd] == r.tok.id
      && r.tok.fd in t.armed && t.armed[r.tok.fd] == Armed(r.tok.id, r.action)
  }

  predicate Concerns(rearms: seq<Rearm>, fd: nat) {
    exists i :: 0 <= i < |rearms| && rearms[i].tok.fd == fd
  }

  predicate Closes(rearms: seq<Rearm>, id: nat) {
    exists i :: 0 <= i < |rearms| && rearms[i].action == Close && rearms[i].tok.id == id
  }

  /** All re-arms have had their effect, and every other entry is what it was. */
  ghost predicate Rearmed(s: State, t: State, rearms: seq<Rearm>) {
    && (forall i :: 0 <= i < |rearms| ==> RearmDone(t, rearms[i]))
    && (forall fd: nat :: !Concerns(rearms, fd) ==> SameAt(s, t, fd) && (fd in s.open <==> fd in t.open))
    && (forall id: nat :: !Closes(rearms, id) ==> SameConn(s, t, id))
    && t.history == s.history && t.nextId == s.nextId && t.queue == s.queue && SameElsewhere(s, t)
  }

  lemma RearmOne(cfg: Config, s: State, r: Rearm)
    requires Targets(s, [r]) && s.pc == Applying
    ensures var t := Finish(cfg, ApplyRearm(s, r)); Rearmed(s, t, [r]) && t.pc == Applying
  {
    var t := Finish(cfg, ApplyRearm(s, r));
    assert [r][0] == r;
    assert forall fd: nat :: Concerns([r], fd) <==> fd == r.tok.fd;
    assert forall id: nat :: Closes([r], id) <==> r.action == Close && id == r.tok.id;
    if r.action == Close {
      ClosedOne(s, t.(pc := s.pc), r);
    } else {
      ArmedOne(s, t, r);
    }
  }

  lemma ClosedOne(s: State, t: State, r: Rearm)
    requires Targets(s, [r]) && r.action == Close
    requires t == s.(connections := s.connections - {r.tok.fd}, heap := s.heap - {r.tok.id},
                     armed := s.armed - {r.tok.fd}, open := s.open - {r.tok.fd})
    ensures RearmDone(t, r)
    ensures forall fd: nat :: fd != r.tok.fd ==> SameAt(s, t, fd) && (fd in s.open <==> fd in t.open)
    ensures forall id: nat :: id != r.tok.id ==> SameConn(s, t, id)
  {
  }

  lemma ArmedOne(s: State, t: State, r: Rearm)
    requires Targets(s, [r]) && r.action != Close
    requires t == s.(armed := s.armed[r.tok.fd := Armed(r.tok.id, r.action)])
    ensures RearmDone(t, r)
    ensures forall fd: nat :: fd != r.tok.fd ==> SameAt(s, t, fd)
    ensures forall id: nat :: SameConn(s, t, id)
  {
    assert [r][0] == r;
  }

  lemma TargetsLeft(s: State, u: State, rearms: seq<Rearm>)
    requires rearms != [] && Targets(s, rearms) && Rearmed(s, u, rearms[..1])
    ensures Targets(u, rearms[1..])
  {
    var first := rearms[0].tok.fd;
    forall fd: nat | fd != first
      ensures SameAt(s, u, fd)
    {
      assert !Concerns(rearms[..1], fd);
    }
    assert RearmDone(u, rearms[..1][0]);
    forall fd | fd in u.connections
      ensures fd in s.connections && u.connections[fd] == s.connections[fd]
    {
      assert fd != first ==> SameAt(s, u, fd);
    }
    forall i | 0 <= i < |rearms[1..]|
      ensures var r := rearms[1..][i]; r.tok.fd in u.connections && u.connections[r.tok.fd] == r.tok.id
    {
      assert rearms[1..][i] == rearms[i + 1];
      assert SameAt(s, u, rearms[i + 1].tok.fd);
    }
  }

  lemma RearmedMore(s: State, u: State, t: State, rearms: seq<Rearm>)
    requires rearms != [] && Targets(s, rearms) && Rearmed(s, u, rearms[..1]) && Rearmed(u, t, rearms[1..])
    ensures Rearmed(s, t, rearms)
  {
    forall i | 0 <= i < |rearms|
      ensures RearmDone(t, rearms[i])
    {
      if i == 0 {
        FirstStays(s, u, t, rearms);
      } else {
        assert RearmDone(t, rearms[1..][i - 1]);
      }
    }
    forall fd: nat | !Concerns(rearms, fd)
      ensures SameAt(s, t, fd) && (fd in s.open <==> fd in t.open)
    {
      NotConcerned(rearms, fd);
      assert SameAt(s, u, fd) && SameAt(u, t, fd);
    }
    forall id: nat | !Closes(rearms, id)
      ensures SameConn(s, t, id)
    {
      NotClosed(rearms, id);
      assert SameConn(s, u, id) && SameConn(u, t, id);
    }
  }

  lemma NotConcerned(rearms: seq<Rearm>, fd: nat)
    requires rearms != [] && !Concerns(rearms, fd)
    ensures !Concerns(rearms[..1], fd) && !Concerns(rearms[1..], fd)
  {
    forall i | 0 <= i < |rearms[1..]|
      ensures rearms[1..][i].tok.fd != fd
    {
      assert rearms[1..][i] == rearms[i + 1];
    }
  }

  lemma NotClosed(rearms: seq<Rearm>, id: nat)
    requires rearms != [] && !Closes(rearms, id)
    ensures !Closes(rearms[..1], id) && !Closes(rearms[1..], id)
  {
    forall i | 0 <= i < |rearms[1..]|
      ensures !(rearms[1..][i].action == Close && rearms[1..][i].tok.id == id)
    {
      assert rearms[1..][i] == rearms[i + 1];
    }
  }

  /** Later re-arms do not undo the first. */
  lemma FirstStays(s: State, u: State, t: State, rearms: seq<Rearm>)
    requires rearms != [] && Targets(s, rearms) && Rearmed(s, u, rearms[..1]) && Rearmed(u, t, rearms[1..])
    ensures RearmDone(t, rearms[0])
  {
    var r := rearms[0];
    assert RearmDone(u, rearms[..1][0]);
    assert !Concerns(rearms[1..], r.tok.fd);
    assert SameAt(u, t, r.tok.fd);
    forall i | 0 <= i < |rearms[1..]|
      ensures rearms[1..][i].tok.id != r.tok.id
    {
      assert rearms[1..][i] == rearms[i + 1];
    }
    assert !Closes(rearms[1..], r.tok.id);
    assert SameConn(u, t, r.tok.id);
  }

  /** Applying a list of re-arms gives each of them its effect. */
  lemma {:induction false} ApplyRearms(cfg: Config, s: State, rearms: seq<Rearm>)
    requires Targets(s, rearms) && s.pc == Applying
    ensures Rearmed(s, Applied(cfg, s, rearms), rearms) && Applied(cfg, s, rearms).pc == Applying
    decreases |rearms|
  {
    if rearms != [] {
      var u := Finish(cfg, ApplyRearm(s, rearms[0]));
      assert rearms[..1] == [rearms[0]];
      RearmOne(cfg, s, rearms[0]);
      TargetsLeft(s, u, rearms);
      ApplyRearms(cfg, u, rearms[1..]);
      RearmedMore(s, u, Applied(cfg, u, rearms[1..]), rearms);
    }
  }

  // ---------------------------------------------------------------------------------
  // Processing the events
  // ---------------------------------------------------------------------------------

  /** The tables are those of a running program. */
  ghost predicate Sane(cfg: Config, s: State) {
    && cfg.listenFd !in s.connections && Injective(s.connections)
    && (forall fd :: fd in s.connections ==> fd in s.open && s.connections[fd] < s.nextId)
  }

  /** The events are about distinct descriptors: the listening one and live connections. */
  ghost predicate Live(cfg: Config, s: State, events: seq<Event>) {
    && OneEventPerFd(events)
    && forall i :: 0 <= i < |events| ==> events[i].fd == cfg.listenFd || events[i].fd in s.connections
  }

  /** The tasks that the events call for, in order. */
  function Tasks(cfg: Config, connections: map<nat, nat>, events: seq<Event>): seq<Tok> {
    if events == [] then []
    else
      var ev := events[0];
      (if ev.fd != cfg.listenFd && !ev.error && ev.fd in connections then [Tok(ev.fd, connections[ev.fd])] else [])
      + Tasks(cfg, connections, events[1..])
  }

  predicate About(events: seq<Event>, fd: nat) {
    exists i :: 0 <= i < |events| && events[i].fd == fd
  }

  predicate ErrorAbout(events: seq<Event>, fd: nat) {
    exists i :: 0 <= i < |events| && events[i] == Event(fd, true)
  }

  /** A connection with an error is gone; one without is disarmed. */
  ghost predicate EventDone(cfg: Config, s: State, t: State, ev: Event) {
    ev.fd == cfg.listenFd ||
    (ev.fd in s.connections &&
     if ev.error then
       s.connections[ev.fd] !in t.heap && (ev.fd in t.connections ==> s.nextId <= t.connections[ev.fd])
     else ev.fd in t.connections && t.connections[ev.fd] == s.connections[ev.fd] && ev.fd !in t.armed)
  }

  /** Every event has had its effect, exactly the right tasks were queued, and what is not
      mentioned is what it was. */
  ghost predicate Processed(cfg: Config, s: State, t: State, events: seq<Event>) {
    && (forall i :: 0 <= i < |events| ==> EventDone(cfg, s, t, events[i]))
    && t.queue == s.queue + Tasks(cfg, s.connections, events)
    && (forall fd :: fd in s.open && !About(events, fd) ==> SameAt(s, t, fd) && fd in t.open)
    && (forall fd :: fd in s.connections && !ErrorAbout(events, fd) ==> SameConn(s, t, s.connections[fd]))
    && NothingReturns(s, t) && SameElsewhere(s, t)
  }

  /** What is new has a new identity. */
  ghost predicate NothingReturns(s: State, t: State) {
    && s.nextId <= t.nextId
    && (forall fd :: fd in t.connections ==>
          (fd in s.connections && t.connections[fd] == s.connections[fd]) || s.nextId <= t.connections[fd])
    && (forall id :: id in t.heap && id < s.nextId ==> id in s.heap && t.heap[id] == s.heap[id])
  }

  /** Accepting leaves everything open alone. */
  lemma {:induction false} AcceptKeepsOpen(cfg: Config, s: State, fds: seq<nat>)
    requires Sane(cfg, s)
    ensures var t := Accepted(cfg, s, fds);
      && Sane(cfg, t) && (forall fd :: fd in s.open ==> SameAt(s, t, fd) && fd in t.open)
      && (forall id: nat :: id < s.nextId ==> SameConn(s, t, id))
      && NothingReturns(s, t) && t.queue == s.queue && SameElsewhere(s, t) && t.pc == s.pc
    decreases |fds|
  {
    if fds != [] && fds[0] !in s.open && fds[0] != cfg.listenFd {
      var u := AcceptedOne(s, fds[0]);
      AcceptKeepsOpen(cfg, u, fds[1..]);
      var t := Accepted(cfg, u, fds[1..]);
      forall fd | fd in s.open
        ensures SameAt(s, t, fd) && fd in t.open
      {
        assert SameAt(s, u, fd) && SameAt(u, t, fd);
      }
      forall id: nat | id < s.nextId
        ensures SameConn(s, t, id)
      {
        assert SameConn(s, u, id) && SameConn(u, t, id);
      }
      assert SameAt(u, t, fds[0]);
    }
  }

  lemma OneTask(cfg: Config, connections: map<nat, nat>, ev: Event)
    ensures Tasks(cfg, connections, [ev])
      == if ev.fd != cfg.listenFd && !ev.error && ev.fd in connections then [Tok(ev.fd, connections[ev.fd])] else []
    ensures forall fd: nat :: About([ev], fd) <==> fd == ev.fd
    ensures forall fd: nat :: ErrorAbout([ev], fd) <==> ev == Event(fd, true)
  {
    assert [ev][0] == ev && [ev][1..] == [];
  }

  lemma ListenOne(cfg: Config, s: State, ev: Event, fds: seq<nat>)
    requires Sane(cfg, s) && s.pc == Dispatching && ev.fd == cfg.listenFd
    ensures var t := Handled(cfg, s, ev, fds); Sane(cfg, t) && t.pc == Dispatching && Processed(cfg, s, t, [ev])
  {
    OneTask(cfg, s.connections, ev);
    AcceptKeepsOpen(cfg, s, fds);
  }

  lemma ErrorOne(cfg: Config, s: State, t: State, ev: Event)
    requires Sane(cfg, s) && s.pc == Dispatching && ev.fd in s.connections && ev.error
    requires t == s.(connections := s.connections - {ev.fd}, heap := s.heap - {s.connections[ev.fd]},
                     armed := s.armed - {ev.fd}, open := s.open - {ev.fd})
    ensures Sane(cfg, t) && Processed(cfg, s, t, [ev])
  {
    OneTask(cfg, s.connections, ev);
  }

  lemma TaskOne(cfg: Config, s: State, t: State, ev: Event)
    requires Sane(cfg, s) && s.pc == Dispatching && ev.fd in s.connections && !ev.error
    requires t == s.(armed := s.armed - {ev.fd}, queue := s.queue + [Tok(ev.fd, s.connections[ev.fd])])
    ensures Sane(cfg, t) && Processed(cfg, s, t, [ev])
  {
    OneTask(cfg, s.connections, ev);
  }

  lemma HandledOne(cfg: Config, s: State, ev: Event, fds: seq<nat>)
    requires Sane(cfg, s) && s.pc == Dispatching && (ev.fd == cfg.listenFd || ev.fd in s.connections)
    ensures var t := Handled(cfg, s, ev, fds);
      && Sane(cfg, t) && t.pc == Dispatching && Processed(cfg, s, t, [ev])
      && (ev.fd != cfg.listenFd ==> t.nextId == s.nextId && forall fd :: fd in t.open ==> fd in s.open)
  {
    if ev.fd == cfg.listenFd {
      ListenOne(cfg, s, ev, fds);
    } else if ev.error {
      ErrorOne(cfg, s, Handled(cfg, s, ev, fds), ev);
    } else {
      TaskOne(cfg, s, Handled(cfg, s, ev, fds), ev);
    }
  }

  lemma {:induction false} TasksAgree(cfg: Config, s: State, u: State, events: seq<Event>)
    requires forall i :: 0 <= i < |events| ==> events[i].fd == cfg.listenFd || SameAt(s, u, events[i].fd)
    ensures Tasks(cfg, s.connections, events) == Tasks(cfg, u.connections, events)
    decreases |events|
  {
    if events != [] {
      TasksAgree(cfg, s, u, events[1..]);
      assert events[0].fd == cfg.listenFd || SameAt(s, u, events[0].fd);
    }
  }

  lemma RestIsApart(events: seq<Event>, fd: nat)
    requires events != [] && OneEventPerFd(events)
    ensures !About(events[1..], events[0].fd) && OneEventPerFd(events[1..])
    ensures About(events, fd) <==> About(events[..1], fd) || About(events[1..], fd)
    ensures ErrorAbout(events, fd) <==> ErrorAbout(events[..1], fd) || ErrorAbout(events[1..], fd)
  {
    var rest := events[1..];
    assert events[..1][0] == events[0];
    assert forall i :: 0 <= i < |rest| ==> rest[i] == events[i + 1];
    if About(events, fd) {
      var i :| 0 <= i < |events| && events[i].fd == fd;
      assert i > 0 ==> rest[i - 1] == events[i];
    }
    if ErrorAbout(events, fd) {
      var i :| 0 <= i < |events| && events[i] == Event(fd, true);
      assert i > 0 ==> rest[i - 1] == events[i];
    }
  }

  /** The other events find their connections as they were. */
  lemma LiveRest(cfg: Config, s: State, u: State, events: seq<Event>)
    requires events != [] && Sane(cfg, s) && Live(cfg, s, events) && Processed(cfg, s, u, events[..1])
    ensures Live(cfg, u, events[1..]) && Tasks(cfg, s.connections, events[1..]) == Tasks(cfg, u.connections, events[1..])
    ensures forall i :: 1 <= i < |events| ==> events[i].fd == cfg.listenFd || SameAt(s, u, events[i].fd)
  {
    RestIsApart(events, 0);
    forall i | 1 <= i < |events| && events[i].fd != cfg.listenFd
      ensures SameAt(s, u, events[i].fd)
    {
      assert events[..1][0] == events[0];
      assert !About(events[..1], events[i].fd);
    }
    TasksAgree(cfg, s, u, events[1..]);
  }

  lemma ProcessedMore(cfg: Config, s: State, u: State, t: State, events: seq<Event>)
    requires events != [] && Sane(cfg, s) && Sane(cfg, u) && Live(cfg, s, events)
    requires Processed(cfg, s, u, events[..1]) && Processed(cfg, u, t, events[1..])
    ensures Processed(cfg, s, t, events)
  {
    LiveRest(cfg, s, u, events);
    EventsDone(cfg, s, u, t, events);
    QueuesJoin(cfg, s, u, t, events);
    forall fd | fd in s.open && !About(events, fd)
      ensures SameAt(s, t, fd) && fd in t.open
    {
      RestIsApart(events, fd);
      assert SameAt(s, u, fd) && SameAt(u, t, fd);
    }
    forall fd | fd in s.connections && !ErrorAbout(events, fd)
      ensures SameConn(s, t, s.connections[fd])
    {
      Unfailed(cfg, s, u, t, events, fd);
    }
  }

  lemma QueuesJoin(cfg: Config, s: State, u: State, t: State, events: seq<Event>)
    requires events != [] && Tasks(cfg, s.connections, events[1..]) == Tasks(cfg, u.connections, events[1..])
    requires u.queue == s.queue + Tasks(cfg, s.connections, events[..1])
    requires t.queue == u.queue + Tasks(cfg, u.connections, events[1..])
    ensures t.queue == s.queue + Tasks(cfg, s.connections, events)
  {
    assert events[..1][0] == events[0] && events[..1][1..] == [];
    assert Tasks(cfg, s.connections, events[..1]) + Tasks(cfg, s.connections, events[1..]) == Tasks(cfg, s.connections, events);
  }

  lemma EventsDone(cfg: Config, s: State, u: State, t: State, events: seq<Event>)
    requires events != [] && Sane(cfg, s) && Sane(cfg, u) && Live(cfg, s, events)
    requires Processed(cfg, s, u, events[..1]) && Processed(cfg, u, t, events[1..])
    ensures forall i :: 0 <= i < |events| ==> EventDone(cfg, s, t, events[i])
  {
    LiveRest(cfg, s, u, events);
    forall i | 0 <= i < |events|
      ensures EventDone(cfg, s, t, events[i])
    {
      if i == 0 {
        RestIsApart(events, 0);
        assert EventDone(cfg, s, u, events[..1][0]);
        FirstDone(cfg, s, u, t, events[0], events[1..]);
      } else {
        assert EventDone(cfg, u, t, events[1..][i - 1]);
        assert events[i].fd == cfg.listenFd || SameAt(s, u, events[i].fd);
      }
    }
  }

  /** Later events do not undo the first. */
  lemma FirstDone(cfg: Config, s: State, u: State, t: State, ev: Event, rest: seq<Event>)
    requires Sane(cfg, s) && EventDone(cfg, s, u, ev) && !About(rest, ev.fd) && NothingReturns(s, u)
    requires Processed(cfg, u, t, rest) && (ev.fd != cfg.listenFd && !ev.error ==> ev.fd in u.open)
    ensures EventDone(cfg, s, t, ev)
  {
    if ev.fd != cfg.listenFd && !ev.error {
      assert SameAt(u, t, ev.fd);
    }
  }

  lemma Unfailed(cfg: Config, s: State, u: State, t: State, events: seq<Event>, fd: nat)
    requires events != [] && Sane(cfg, s) && Live(cfg, s, events)
    requires Processed(cfg, s, u, events[..1]) && Processed(cfg, u, t, events[1..])
    requires fd in s.connections && !ErrorAbout(events, fd)
    ensures SameConn(s, t, s.connections[fd])
  {
    RestIsApart(events, fd);
    assert SameConn(s, u, s.connections[fd]);
    if About(events[..1], fd) {
      assert EventDone(cfg, s, u, events[..1][0]);
    } else {
      assert SameAt(s, u, fd);
    }
    assert SameConn(u, t, u.connections[fd]);
  }

  /** Processing a batch gives every event its effect. */
  lemma {:induction false} DispatchProcesses(cfg: Config, s: State, events: seq<Event>, fds: seq<nat>)
    requires Sane(cfg, s) && s.pc == Dispatching && Live(cfg, s, events)
    ensures Processed(cfg, s, Dispatched(cfg, s, events, fds), events)
    decreases |events|
  {
    if events != [] {
      var u := Handled(cfg, s, events[0], fds);
      HandledOne(cfg, s, events[0], fds);
      assert events[..1] == [events[0]];
      LiveRest(cfg, s, u, events);
      DispatchProcesses(cfg, u, events[1..], fds);
      ProcessedMore(cfg, s, u, Dispatched(cfg, u, events[1..], fds), events);
    }
  }

  // ---------------------------------------------------------------------------------
  // A whole turn
  // ---------------------------------------------------------------------------------

  /** If the listening socket is ready, what `accept` yields has been entered by the end of the
      batch, whatever else the batch holds. */
  lemma {:induction false} DispatchAccepts(cfg: Config, s: State, events: seq<Event>, fds: seq<nat>)
    requires Sane(cfg, s) && s.pc == Dispatching && Live(cfg, s, events)
    requires NewDescriptors(cfg, s.open, fds) && About(events, cfg.listenFd)
    ensures forall i :: 0 <= i < |fds| ==> NewConnection(Dispatched(cfg, s, events, fds), fds[i], s.nextId + i)
    decreases |events|
  {
    if events[0].fd == cfg.listenFd {
      ListenFirst(cfg, s, events, fds);
    } else {
      OtherFirst(cfg, s, events, fds);
      DispatchAccepts(cfg, Handled(cfg, s, events[0], fds), events[1..], fds);
    }
  }

  lemma OtherFirst(cfg: Config, s: State, events: seq<Event>, fds: seq<nat>)
    requires Sane(cfg, s) && s.pc == Dispatching && Live(cfg, s, events) && events != []
    requires NewDescriptors(cfg, s.open, fds) && About(events, cfg.listenFd) && events[0].fd != cfg.listenFd
    ensures var u := Handled(cfg, s, events[0], fds);
      && Sane(cfg, u) && u.pc == Dispatching && Live(cfg, u, events[1..]) && u.nextId == s.nextId
      && NewDescriptors(cfg, u.open, fds) && About(events[1..], cfg.listenFd)
  {
    HandledOne(cfg, s, events[0], fds);
    assert events[..1] == [events[0]];
    LiveRest(cfg, s, Handled(cfg, s, events[0], fds), events);
    RestIsApart(events, cfg.listenFd);
    assert !About(events[..1], cfg.listenFd);
  }

  lemma ListenFirst(cfg: Config, s: State, events: seq<Event>, fds: seq<nat>)
    requires Sane(cfg, s) && s.pc == Dispatching && Live(cfg, s, events)
    requires NewDescriptors(cfg, s.open, fds) && events != [] && events[0].fd == cfg.listenFd
    ensures forall i :: 0 <= i < |fds| ==> NewConnection(Dispatched(cfg, s, events, fds), fds[i], s.nextId + i)
  {
    var u := Accepted(cfg, s, fds);
    var t := Dispatched(cfg, u, events[1..], fds);
    AcceptEnters(cfg, s, fds);
    ListenOne(cfg, s, events[0], fds);
    assert events[..1] == [events[0]];
    LiveRest(cfg, s, u, events);
    DispatchProcesses(cfg, u, events[1..], fds);
    forall i | 0 <= i < |fds|
      ensures NewConnection(t, fds[i], s.nextId + i)
    {
      NewStays(cfg, s, u, t, events[1..], fds, i);
    }
  }

  lemma NewStays(cfg: Config, s: State, u: State, t: State, rest: seq<Event>, fds: seq<nat>, i: nat)
    requires Sane(cfg, s) && NewDescriptors(cfg, s.open, fds) && i < |fds|
    requires NewConnection(u, fds[i], s.nextId + i) && Processed(cfg, u, t, rest)
    requires forall k :: 0 <= k < |rest| ==> rest[k].fd == cfg.listenFd || rest[k].fd in s.connections
    ensures NewConnection(t, fds[i], s.nextId + i)
  {
    assert !About(rest, fds[i]);
    assert SameAt(u, t, fds[i]);
    assert SameConn(u, t, u.connections[fds[i]]);
  }

  lemma PendingTargets(s: State)
    requires Owned(s) && TableAgrees(s)
    ensures Targets(s, s.pending)
  {
    forall i | 0 <= i < |s.pending|
      ensures var t := s.pending[i].tok; t.fd in s.connections && s.connections[t.fd] == t.id
      ensures forall j :: i < j < |s.pending| ==> s.pending[j].tok.fd != s.pending[i].tok.fd
    {
      PendingAlone(s, i);
    }
  }

  lemma PendingAlone(s: State, i: nat)
    requires Owned(s) && i < |s.pending|
    ensures var t := s.pending[i].tok; t.fd in s.connections && s.connections[t.fd] == t.id
    ensures forall j :: i < j < |s.pending| ==> s.pending[j].tok.fd != s.pending[i].tok.fd
  {
    var rest := s.(pending := Seqs.Remove(s.pending, i));
    var toks := RearmToks(s.pending);
    Seqs.RemoveBag(toks, i);
    assert RearmToks(rest.pending) == Seqs.Remove(toks, i);
    assert Tokens(s) == Tokens(rest) + multiset{s.pending[i].tok};
    TokenIsLive(s, s.pending[i].tok, Tokens(rest));
    forall j | i < j < |s.pending|
      ensures s.pending[j].tok.fd != s.pending[i].tok.fd
    {
      assert RearmToks(rest.pending)[j - 1] == s.pending[j].tok;
      assert s.pending[j].tok in multiset(RearmToks(rest.pending));
    }
  }

  /** What a turn of the loop has done: every re-arm posted before it has had its effect, which
      leads to `mid`; then every event of a batch that the event loop could deliver has had
      its own, and new connections are entered if the listening socket was ready. */
  ghost predicate TurnDone(cfg: Config, s: State, mid: State, t: State, events: seq<Event>, fds: seq<nat>) {
    && Rearmed(s.(pending := []), mid, s.pending)
    && (Plausible(cfg, mid, events) ==>
          && Processed(cfg, mid, t, events)
          && (About(events, cfg.listenFd) && NewDescriptors(cfg, mid.open, fds) ==>
                forall i :: 0 <= i < |fds| ==> NewConnection(t, fds[i], mid.nextId + i)))
    && (!Plausible(cfg, mid, events) ==> Processed(cfg, mid, t, []))
  }

  lemma SaneWhenTidy(cfg: Config, s: State)
    requires Inv(cfg, s)
    ensures Sane(cfg, s) && forall fd :: fd in s.armed ==> fd in s.connections
  {
    forall fd | fd in s.armed
      ensures fd in s.connections
    {
      ArmedIsLive(s, fd);
    }
  }

  lemma ProcessedFrom(cfg: Config, mid: State, v: State, t: State, events: seq<Event>)
    requires v == mid.(pc := v.pc) && Processed(cfg, v, t, events)
    ensures Processed(cfg, mid, t.(pc := Top), events)
  {
    assert forall fd :: SameAt(v, t, fd) ==> SameAt(mid, t.(pc := Top), fd);
    assert forall id :: SameConn(v, t, id) ==> SameConn(mid, t.(pc := Top), id);
  }

  lemma BatchDone(cfg: Config, mid: State, ready: seq<Event>, fds: seq<nat>)
    requires Sane(cfg, mid) && Live(cfg, mid, ready)
    ensures var t := Dispatched(cfg, mid.(pc := Dispatching), ready, fds).(pc := Top);
      && Processed(cfg, mid, t, ready)
      && (About(ready, cfg.listenFd) && NewDescriptors(cfg, mid.open, fds) ==>
            forall i :: 0 <= i < |fds| ==> NewConnection(t, fds[i], mid.nextId + i))
  {
    var v := mid.(pc := Dispatching);
    var t := Dispatched(cfg, v, ready, fds);
    DispatchProcesses(cfg, v, ready, fds);
    ProcessedFrom(cfg, mid, v, t, ready);
    if About(ready, cfg.listenFd) && NewDescriptors(cfg, mid.open, fds) {
      DispatchAccepts(cfg, v, ready, fds);
      forall i | 0 <= i < |fds|
        ensures NewConnection(t.(pc := Top), fds[i], mid.nextId + i)
      {
        assert NewConnection(t, fds[i], v.nextId + i);
      }
    }
  }

  lemma ReadyIsLive(cfg: Config, mid: State, events: seq<Event>)
    requires Sane(cfg, mid) && (forall fd :: fd in mid.armed ==> fd in mid.connections) && !cfg.hangups
    ensures Live(cfg, mid, Delivered(cfg, mid, events))
  {
    var ready := Delivered(cfg, mid, events);
    forall i | 0 <= i < |ready|
      ensures ready[i].fd == cfg.listenFd || ready[i].fd in mid.connections
    {
      assert ready[i] in ready;
      assert Deliverable(cfg, mid, ready[i]);
    }
  }

  /** After the re-arms the tables are in order. */
  lemma MidIsSane(cfg: Config, s: State)
    requires Inv(cfg, s) && !cfg.hangups && s.pc == Top
    ensures var start := s.(pending := [], pc := Applying);
      var mid := Applied(cfg, start, s.pending);
      && Rearmed(start, mid, s.pending)
      && Sane(cfg, mid) && forall fd :: fd in mid.armed ==> fd in mid.connections
  {
    var start := s.(pending := [], pc := Applying);
    PendingTargets(s);
    ApplyRearms(cfg, start, s.pending);
    assert s.batch == [];
    RunsToRefl(cfg, s);
    RunsToStep(cfg, s, s, Swap, start.(batch := s.pending));
    AppliedRuns(cfg, s, start, s.pending);
    TidyAfter(cfg, s, Applied(cfg, start, s.pending));
  }

  lemma TidyAfter(cfg: Config, s: State, mid: State)
    requires Inv(cfg, s) && !cfg.hangups && RunsTo(cfg, s, mid.(batch := []))
    ensures Sane(cfg, mid) && forall fd :: fd in mid.armed ==> fd in mid.connections
  {
    RunsToKeeps(cfg, s, mid.(batch := []));
    SaneWhenTidy(cfg, mid.(batch := []));
  }

  /** One turn of the loop, entry by entry, from any state of a running program. */
  lemma TurnDoes(cfg: Config, s: State, events: seq<Event>, fds: seq<nat>)
    requires Inv(cfg, s) && !cfg.hangups && s.pc == Top
    ensures exists mid :: TurnDone(cfg, s, mid, Turned(cfg, s, events, fds), events, fds)
  {
    var start := s.(pending := [], pc := Applying);
    var mid := Applied(cfg, start, s.pending);
    var ready := Delivered(cfg, mid, events);
    MidIsSane(cfg, s);
    ReadyIsLive(cfg, mid, events);
    BatchDone(cfg, mid, ready, fds);
    RearmedFrom(start, s.(pending := []), mid, s.pending);
    assert TurnDone(cfg, s, mid, Turned(cfg, s, events, fds), events, fds);
  }

  lemma RearmedFrom(start: State, s: State, mid: State, rearms: seq<Rearm>)
    requires start == s.(pc := start.pc) && Rearmed(start, mid, rearms)
    ensures Rearmed(s, mid, rearms)
  {
    assert forall fd :: SameAt(start, mid, fd) ==> SameAt(s, mid, fd);
    assert forall id :: SameConn(start, mid, id) ==> SameConn(s, mid, id);
  }

  /** The first turn of a program whose listening socket is ready: every descriptor that
      `accept` yields is a connection, numbered from 0 and armed to be readable. */
  lemma FirstTurnAccepts(cfg: Config, fds: seq<nat>)
    requires !cfg.hangups && NewDescriptors(cfg, {}, fds)
    ensures var t := Turned(cfg, INIT, [Event(cfg.listenFd, false)], fds);
      forall i :: 0 <= i < |fds| ==> NewConnection(t, fds[i], i)
  {
    var ready := [Event(cfg.listenFd, false)];
    assert Run(cfg, INIT, []) == Some(INIT);
    ReachableInv(cfg, INIT);
    TurnDoes(cfg, INIT, ready, fds);
    var t := Turned(cfg, INIT, ready, fds);
    var mid :| TurnDone(cfg, INIT, mid, t, ready, fds);
    assert Plausible(cfg, mid, ready);
    assert ready[0].fd == cfg.listenFd;
    forall fd: nat
      ensures fd !in mid.open
    {
      assert !Concerns([], fd);
    }
    assert mid.open == {};
    forall i | 0 <= i < |fds|
      ensures NewConnection(t, fds[i], i)
    {
      assert NewConnection(t, fds[i], mid.nextId + i);
    }
  }
}
