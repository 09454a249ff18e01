/** The kqueue backend of the event loop: one interest mask per descriptor kept in step with
    separate read and write filters in the kernel, and the merge of its events. */
module Kqueue {
  import Handoff

  const READABLE: bv8 := 1
  const WRITABLE: bv8 := 2

  datatype Filter = ReadFilter | WriteFilter

  datatype Registration = Registration(fd: nat, filter: Filter)

  /** `EV_ADD` or `EV_DELETE` of one filter. */
  datatype Change = Change(reg: Registration, add: bool)

  /** `interestByFd_` and the kernel's own table. */
  datatype Queue = Queue(interest: map<nat, bv8>, kernel: set<Registration>)

  predicate Wants(mask: bv8, f: Filter) {
    match f
    case ReadFilter => mask & READABLE != 0
    case WriteFilter => mask & WRITABLE != 0
  }

  /** The bits are those of the event types: 1 for readable, 2 for writable. */
  lemma WantsBits(mask: bv8)
    ensures Wants(mask, ReadFilter) <==> mask & 1 != 0
    ensures Wants(mask, WriteFilter) <==> mask & 2 != 0
  {
  }

  function Mask(interest: map<nat, bv8>, fd: nat): bv8 {
    if fd in interest then interest[fd] else 0
  }

  /** The change list for one filter: empty unless the wish differs from the past one. */
  function Differs(fd: nat, prev: bv8, mask: bv8, f: Filter): seq<Change> {
    if Wants(mask, f) != Wants(prev, f) then [Change(Registration(fd, f), Wants(mask, f))] else []
  }

  function Changes(fd: nat, prev: bv8, mask: bv8): seq<Change> {
    Differs(fd, prev, mask, ReadFilter) + Differs(fd, prev, mask, WriteFilter)
  }

  function Apply(kernel: set<Registration>, c: Change): set<Registration> {
    if c.add then kernel + {c.reg} else kernel - {c.reg}
  }

  function ApplyAll(kernel: set<Registration>, changes: seq<Change>): set<Registration>
    decreases |changes|
  {
    if changes == [] then kernel else ApplyAll(Apply(kernel, changes[0]), changes[1..])
  }

  function Remember(interest: map<nat, bv8>, fd: nat, mask: bv8): map<nat, bv8> {
    if mask == 0 then interest - {fd} else interest[fd := mask]
  }

  /** `modify` when the kernel accepts the first `accepted` changes and refuses the next. */
  function Modified(q: Queue, fd: nat, mask: bv8, accepted: nat): Queue {
    var changes := Changes(fd, Mask(q.interest, fd), mask);
    if accepted >= |changes| then Queue(Remember(q.interest, fd, mask), ApplyAll(q.kernel, changes))
    else q.(kernel := ApplyAll(q.kernel, changes[..accepted]))
  }

  /** `remove`: delete what is registered, ignore where the kernel refuses, and forget the
      descriptor. */
  function Removed(q: Queue, fd: nat, accepted: nat): Queue {
    var changes := Changes(fd, Mask(q.interest, fd), 0);
    Queue(q.interest - {fd},
          ApplyAll(q.kernel, if accepted >= |changes| then changes else changes[..accepted]))
  }

  // ---------------------------------------------------------------------------------
  // The kernel follows the masks
  // ---------------------------------------------------------------------------------

  /** The kernel holds exactly the filters that the remembered masks ask for. */
  ghost predicate Agrees(q: Queue) {
    forall fd, f :: Registration(fd, f) in q.kernel <==> Wants(Mask(q.interest, fd), f)
  }

  /** Every deletion names a registered filter and every addition an unregistered one. */
  predicate Effective(kernel: set<Registration>, changes: seq<Change>)
    decreases |changes|
  {
    changes == [] ||
    ((changes[0].add <==> changes[0].reg !in kernel) && Effective(Apply(kernel, changes[0]), changes[1..]))
  }

  /** What a prefix of the change list does to the kernel. */
  lemma ChangesWork(kernel: set<Registration>, fd: nat, prev: bv8, mask: bv8)
    requires forall f :: Registration(fd, f) in kernel <==> Wants(prev, f)
    ensures var changes := Changes(fd, prev, mask);
      && Effective(kernel, changes)
      && (forall r :: r in ApplyAll(kernel, changes) <==> if r.fd == fd then Wants(mask, r.filter) else r in kernel)
  {
    var read, write := Registration(fd, ReadFilter), Registration(fd, WriteFilter);
    var a, b := Differs(fd, prev, mask, ReadFilter), Differs(fd, prev, mask, WriteFilter);
    var mid := if a == [] then kernel else Apply(kernel, a[0]);
    assert a + b == Changes(fd, prev, mask);
    assert (read in kernel <==> Wants(prev, ReadFilter)) && (write in kernel <==> Wants(prev, WriteFilter));
    assert write in mid <==> write in kernel;
    OneChange(mid, b);
    if a == [] {
      assert a + b == b;
    } else {
      assert (a + b)[0] == a[0] && (a + b)[1..] == b;
    }
    forall r
      ensures r in ApplyAll(kernel, a + b) <==> if r.fd == fd then Wants(mask, r.filter) else r in kernel
    {
      assert r.fd == fd ==> r == read || r == write;
    }
  }

  lemma OneChange(kernel: set<Registration>, b: seq<Change>)
    requires |b| <= 1
    ensures ApplyAll(kernel, b) == if b == [] then kernel else Apply(kernel, b[0])
    ensures Effective(kernel, b) <==> b == [] || (b[0].add <==> b[0].reg !in kernel)
  {
    if b != [] {
      assert b[1..] == [];
    }
  }

  lemma RememberMask(interest: map<nat, bv8>, fd: nat, mask: bv8, other: nat)
    ensures Mask(Remember(interest, fd, mask), other) == if other == fd then mask else Mask(interest, other)
  {
  }

  /** A successful `modify` keeps kernel and masks in step with effective changes only. */
  lemma ModifyAgrees(q: Queue, fd: nat, mask: bv8)
    requires Agrees(q)
    ensures Effective(q.kernel, Changes(fd, Mask(q.interest, fd), mask))
    ensures Agrees(Modified(q, fd, mask, 2))
  {
    ChangesWork(q.kernel, fd, Mask(q.interest, fd), mask);
    var t := Modified(q, fd, mask, 2);
    forall other, f
      ensures Registration(other, f) in t.kernel <==> Wants(Mask(t.interest, other), f)
    {
      RememberMask(q.interest, fd, mask, other);
    }
  }

  lemma RemoveAgrees(q: Queue, fd: nat)
    requires Agrees(q)
    ensures Effective(q.kernel, Changes(fd, Mask(q.interest, fd), 0)) && Agrees(Removed(q, fd, 2))
    ensures Removed(q, fd, 2) == Modified(q, fd, 0, 2)
  {
    ModifyAgrees(q, fd, 0);
  }

  /** A `modify` that fails leaves kernel and masks in step exactly when the kernel refused
      the very first change: after a half-applied pair the table lies. */
  lemma FailedModify(q: Queue, fd: nat, mask: bv8, accepted: nat)
    requires Agrees(q) && accepted < |Changes(fd, Mask(q.interest, fd), mask)|
    ensures Agrees(Modified(q, fd, mask, accepted)) <==> accepted == 0
  {
    var prev := Mask(q.interest, fd);
    var changes := Changes(fd, prev, mask);
    var t := Modified(q, fd, mask, accepted);
    if accepted == 0 {
      assert changes[..0] == [];
    } else {
      var reg := Registration(fd, ReadFilter);
      assert changes[..1] == [Change(reg, Wants(mask, ReadFilter))];
      OneChange(q.kernel, changes[..1]);
      assert Wants(mask, ReadFilter) != Wants(prev, ReadFilter);
      assert reg in t.kernel <==> Wants(mask, ReadFilter);
    }
  }

  /** A pair of changes that is broken off half-way has changed the read filter only. */
  lemma HalfModified(q: Queue, fd: nat, mask: bv8)
    requires Agrees(q) && |Changes(fd, Mask(q.interest, fd), mask)| == 2
    ensures var t := Modified(q, fd, mask, 1);
      && (Registration(fd, ReadFilter) in t.kernel <==> mask & 1 != 0)
      && (Registration(fd, WriteFilter) in t.kernel <==> Mask(q.interest, fd) & 2 != 0)
      && t.interest == q.interest
  {
    var prev := Mask(q.interest, fd);
    var changes := Changes(fd, prev, mask);
    assert changes[..1] == [Change(Registration(fd, ReadFilter), Wants(mask, ReadFilter))];
    OneChange(q.kernel, changes[..1]);
    WantsBits(mask);
    WantsBits(prev);
  }

  /** What a caller can see beforehand: `modify` leaves kernel and masks in step whatever the
      kernel answers exactly when it asks for at most one change. */
  lemma SafeToModify(q: Queue, fd: nat, mask: bv8)
    requires Agrees(q)
    ensures (forall accepted: nat :: Agrees(Modified(q, fd, mask, accepted)))
      <==> |Changes(fd, Mask(q.interest, fd), mask)| <= 1
  {
    var n := |Changes(fd, Mask(q.interest, fd), mask)|;
    forall accepted: nat
      ensures Agrees(Modified(q, fd, mask, accepted)) <==> accepted == 0 || accepted >= n
    {
      if accepted >= n {
        ModifyAgrees(q, fd, mask);
        assert Modified(q, fd, mask, accepted) == Modified(q, fd, mask, 2);
      } else {
        FailedModify(q, fd, mask, accepted);
      }
    }
    assert Agrees(Modified(q, fd, mask, 1)) <==> n <= 1;
  }

  /** The filters of a descriptor are gone, as when it is closed. */
  function Dropped(q: Queue, fd: nat): Queue {
    q.(kernel := q.kernel - {Registration(fd, ReadFilter), Registration(fd, WriteFilter)})
  }

  /** A refused `remove` is harmless for a descriptor whose filters the kernel has dropped
      already, and a lie for one that is still registered. */
  lemma RefusedRemove(q: Queue, fd: nat)
    requires Agrees(q)
    ensures Agrees(Removed(Dropped(q, fd), fd, 0))
    ensures Agrees(Removed(q, fd, 0)) <==> Mask(q.interest, fd) & (READABLE | WRITABLE) == 0
  {
    var changes := Changes(fd, Mask(q.interest, fd), 0);
    assert changes[..0] == [];
    var t := Removed(q, fd, 0);
    assert t.kernel == q.kernel && Removed(Dropped(q, fd), fd, 0).kernel == Dropped(q, fd).kernel;
    if Wants(Mask(q.interest, fd), ReadFilter) {
      assert Registration(fd, ReadFilter) in t.kernel && Mask(t.interest, fd) == 0;
    } else if Wants(Mask(q.interest, fd), WriteFilter) {
      assert Registration(fd, WriteFilter) in t.kernel && Mask(t.interest, fd) == 0;
    } else {
      assert q.kernel == Dropped(q, fd).kernel;
    }
  }

  // ---------------------------------------------------------------------------------
  // Any sequence of calls
  // ---------------------------------------------------------------------------------

  datatype Op = Modify(fd: nat, mask: bv8) | Remove(fd: nat)

  function Perform(q: Queue, op: Op): Queue {
    match op
    case Modify(fd, mask) => Modified(q, fd, mask, 2)
    case Remove(fd) => Removed(q, fd, 2)
  }

  function PerformAll(q: Queue, ops: seq<Op>): Queue {
    if ops == [] then q else Perform(PerformAll(q, ops[..|ops| - 1]), ops[|ops| - 1])
  }

  /** The mask most recently asked for; none after a `remove`. */
  function LastAsked(ops: seq<Op>, fd: nat): bv8 {
    if ops == [] then 0
    else
      var last := ops[|ops| - 1];
      if last.fd == fd then (if last.Modify? then last.mask else 0)
      else LastAsked(ops[..|ops| - 1], fd)
  }

  /** Refinement: after any sequence of successful calls the kernel's filters are exactly
      those of the mask last asked for on each descriptor. */
  lemma {:induction false} KernelFollowsMasks(ops: seq<Op>)
    ensures Agrees(PerformAll(Queue(map[], {}), ops))
    ensures forall fd :: Mask(PerformAll(Queue(map[], {}), ops).interest, fd) == LastAsked(ops, fd)
  {
    if ops != [] {
      var q := PerformAll(Queue(map[], {}), ops[..|ops| - 1]);
      KernelFollowsMasks(ops[..|ops| - 1]);
      var last := ops[|ops| - 1];
      var mask := if last.Modify? then last.mask else 0;
      ModifyAgrees(q, last.fd, mask);
      RemoveAgrees(q, last.fd);
      forall fd
        ensures Mask(Perform(q, last).interest, fd) == LastAsked(ops, fd)
      {
        RememberMask(q.interest, last.fd, mask, fd);
      }
    }
  }

  // ---------------------------------------------------------------------------------
  // Waiting
  // ---------------------------------------------------------------------------------

  /** One kernel event; `failed` is `EV_ERROR` or `EV_EOF`. */
  datatype Kevent = Kevent(reg: Registration, failed: bool)

  datatype IoEvent = IoEvent(fd: nat, mask: bv8, error: bool)

  /** The bit that a filter sets. */
  function Bit(f: Filter): bv8 {
    match f case ReadFilter => READABLE case WriteFilter => WRITABLE
  }

  ghost predicate Reported(events: seq<Kevent>, fd: nat) {
    exists i :: 0 <= i < |events| && events[i].reg.fd == fd
  }

  ghost predicate Fired(events: seq<Kevent>, reg: Registration) {
    exists i :: 0 <= i < |events| && events[i].reg == reg
  }

  ghost predicate FailedFor(events: seq<Kevent>, fd: nat) {
    exists i :: 0 <= i < |events| && events[i].reg.fd == fd && events[i].failed
  }

  /** What the kernel said about a descriptor: its filters OR-ed, its failures OR-ed. */
  ghost predicate Sums(events: seq<Kevent>, ev: IoEvent) {
    && (forall f :: Wants(ev.mask, f) <==> Fired(events, Registration(ev.fd, f)))
    && (ev.error <==> FailedFor(events, ev.fd))
  }

  ghost predicate Merged(events: seq<Kevent>, merged: map<nat, IoEvent>) {
    && (forall fd :: fd in merged <==> Reported(events, fd))
    && (forall fd :: fd in merged ==> merged[fd].fd == fd && Sums(events, merged[fd]))
  }

  function MergeOne(merged: map<nat, IoEvent>, e: Kevent): map<nat, IoEvent> {
    var fd := e.reg.fd;
    var before := if fd in merged then merged[fd] else IoEvent(fd, 0, false);
    merged[fd := IoEvent(fd, before.mask | Bit(e.reg.filter), before.error || e.failed)]
  }

  lemma MergeStep(events: seq<Kevent>, merged: map<nat, IoEvent>, e: Kevent)
    requires Merged(events, merged)
    ensures Merged(events + [e], MergeOne(merged, e))
  {
    var all, result := events + [e], MergeOne(merged, e);
    assert all[|events|] == e;
    forall fd
      ensures Reported(all, fd) <==> Reported(events, fd) || fd == e.reg.fd
    {
      if Reported(events, fd) {
        var i :| 0 <= i < |events| && events[i].reg.fd == fd;
        assert all[i].reg.fd == fd;
      }
    }
    forall fd | fd in result
      ensures result[fd].fd == fd && Sums(all, result[fd])
    {
      MergeSums(events, if fd in merged then merged[fd] else IoEvent(fd, 0, false), e);
    }
  }

  lemma FiredSnoc(events: seq<Kevent>, e: Kevent, reg: Registration)
    ensures Fired(events + [e], reg) <==> Fired(events, reg) || e.reg == reg
    ensures FailedFor(events + [e], reg.fd) <==> FailedFor(events, reg.fd) || (e.reg.fd == reg.fd && e.failed)
  {
    var all := events + [e];
    assert all[|events|] == e;
    assert forall i :: 0 <= i < |events| ==> all[i] == events[i];
  }

  lemma MergeSums(events: seq<Kevent>, ev: IoEvent, e: Kevent)
    requires Sums(events, ev)
    ensures ev.fd != e.reg.fd ==> Sums(events + [e], ev)
    ensures ev.fd == e.reg.fd ==>
      Sums(events + [e], IoEvent(ev.fd, ev.mask | Bit(e.reg.filter), ev.error || e.failed))
  {
    forall f
      ensures Wants(ev.mask | Bit(e.reg.filter), f) <==> Wants(ev.mask, f) || f == e.reg.filter
      ensures Fired(events + [e], Registration(ev.fd, f)) <==>
        Fired(events, Registration(ev.fd, f)) || e.reg == Registration(ev.fd, f)
    {
      FiredSnoc(events, e, Registration(ev.fd, f));
    }
    FiredSnoc(events, e, Registration(ev.fd, ReadFilter));
  }

  /** The merge loop of `wait`. */
  method MergeEvents(events: seq<Kevent>) returns (merged: map<nat, IoEvent>)
    ensures Merged(events, merged)
  {
    merged := map[];
    for i := 0 to |events|
      invariant Merged(events[..i], merged)
    {
      assert events[..i + 1] == events[..i] + [events[i]];
      MergeStep(events[..i], merged, events[i]);
      merged := MergeOne(merged, events[i]);
    }
    assert events[..|events|] == events;
  }

  ghost predicate Listed(out: seq<IoEvent>, fd: nat) {
    exists i :: 0 <= i < |out| && out[i].fd == fd
  }

  lemma ListedSnoc(out: seq<IoEvent>, ev: IoEvent, fd: nat)
    ensures Listed(out + [ev], fd) <==> Listed(out, fd) || ev.fd == fd
  {
    var all := out + [ev];
    assert all[|out|] == ev;
    assert forall i :: 0 <= i < |out| ==> all[i] == out[i];
  }

  /** The table written out as a list, in some order. */
  method ListEvents(merged: map<nat, IoEvent>) returns (out: seq<IoEvent>)
    requires forall fd :: fd in merged ==> merged[fd].fd == fd
    ensures forall i :: 0 <= i < |out| ==> out[i].fd in merged && out[i] == merged[out[i].fd]
    ensures forall fd :: fd in merged ==> Listed(out, fd)
    ensures forall i, j :: 0 <= i < j < |out| ==> out[i].fd != out[j].fd
  {
    out := [];
    var left := merged.Keys;
    while left != {}
      invariant left <= merged.Keys
      invariant forall i :: 0 <= i < |out| ==> out[i].fd in merged && out[i].fd !in left && out[i] == merged[out[i].fd]
      invariant forall fd :: fd in merged && fd !in left ==> Listed(out, fd)
      invariant forall i, j :: 0 <= i < j < |out| ==> out[i].fd != out[j].fd
      decreases left
    {
      var fd :| fd in left;
      forall g
        ensures Listed(out + [merged[fd]], g) <==> Listed(out, g) || fd == g
      {
        ListedSnoc(out, merged[fd], g);
      }
      out := out + [merged[fd]];
      left := left - {fd};
    }
  }

  /** One event for each reported descriptor, with everything the kernel said about it. */
  ghost predicate Summary(events: seq<Kevent>, out: seq<IoEvent>) {
    && (forall i :: 0 <= i < |out| ==> Reported(events, out[i].fd) && Sums(events, out[i]))
    && (forall fd :: Reported(events, fd) ==> Listed(out, fd))
    && (forall i, j :: 0 <= i < j < |out| ==> out[i].fd != out[j].fd)
  }

  /** `wait`, from the kernel's answer on. */
  method Wait(events: seq<Kevent>) returns (out: seq<IoEvent>)
    ensures Summary(events, out)
  {
    var merged := MergeEvents(events);
    out := ListEvents(merged);
  }

  // ---------------------------------------------------------------------------------
  // kqueue meets the assumption of the hand-off
  // ---------------------------------------------------------------------------------

  function Seen(out: seq<IoEvent>): seq<Handoff.Event> {
    seq(|out|, i requires 0 <= i < |out| => Handoff.Event(out[i].fd, out[i].error))
  }

  /** With kernel and masks in step, and a kernel that reports registered filters only, every
      batch is one the hand-off can cope with: armed descriptors, one event each. */
  lemma ReportsArmedOnly(cfg: Handoff.Config, s: Handoff.State, q: Queue, events: seq<Kevent>, out: seq<IoEvent>)
    requires Agrees(q) && (forall e :: e in events ==> e.reg in q.kernel) && Summary(events, out)
    requires forall fd :: Mask(q.interest, fd) != 0 ==> fd == cfg.listenFd || fd in s.armed
    ensures Handoff.Plausible(cfg, s, Seen(out))
  {
    forall i | 0 <= i < |out|
      ensures Handoff.Deliverable(cfg, s, Seen(out)[i])
    {
      var k :| 0 <= k < |events| && events[k].reg.fd == out[i].fd;
      assert events[k] in events;
      assert Registration(out[i].fd, events[k].reg.filter) in q.kernel;
    }
    assert Handoff.OneEventPerFd(Seen(out));
    forall ev | ev in Seen(out)
      ensures Handoff.Deliverable(cfg, s, ev)
    {
      var i :| 0 <= i < |out| && Seen(out)[i] == ev;
    }
  }

  // ---------------------------------------------------------------------------------
  // The reactor object
  // ---------------------------------------------------------------------------------

  class KqueueReactor {
    var interestByFd: map<nat, bv8>
    var kernel: set<Registration>

    function View(): Queue
      reads this
    {
      Queue(interestByFd, kernel)
    }

    constructor ()
      ensures View() == Queue(map[], {})
    {
      interestByFd, kernel := map[], {};
    }

    /** The system call: the kernel applies the list until it refuses a change. */
    method Kevents(changes: seq<Change>, accepted: nat) returns (ok: bool)
      modifies this`kernel
      ensures ok == (accepted >= |changes|)
      ensures kernel == ApplyAll(old(kernel), if ok then changes else changes[..accepted])
    {
      var n := if accepted >= |changes| then |changes| else accepted;
      var todo := changes[..n];
      for i := 0 to |todo|
        invariant ApplyAll(kernel, todo[i..]) == ApplyAll(old(kernel), todo)
      {
        assert todo[i..][1..] == todo[i + 1..];
        kernel := Apply(kernel, todo[i]);
      }
      assert n == |changes| ==> todo == changes;
      ok := accepted >= |changes|;
    }

    /** `modify`, and `add`, which is the same. */
    method Modify(fd: nat, mask: bv8, accepted: nat) returns (ok: bool)
      modifies this
      ensures View() == Modified(old(View()), fd, mask, accepted)
      ensures ok == (accepted >= |Changes(fd, Mask(old(interestByFd), fd), mask)|)
    {
      var prev: bv8 := if fd in interestByFd then interestByFd[fd] else 0;
      var changes: seq<Change> := [];
      var wantRead := mask & READABLE != 0;
      if wantRead != (prev & READABLE != 0) {
        changes := changes + [Change(Registration(fd, ReadFilter), wantRead)];
      }
      var wantWrite := mask & WRITABLE != 0;
      if wantWrite != (prev & WRITABLE != 0) {
        changes := changes + [Change(Registration(fd, WriteFilter), wantWrite)];
      }
      assert changes == Changes(fd, prev, mask);
      ok := true;
      if changes != [] {
        ok := Kevents(changes, accepted);
        if !ok { return; }
      }
      if mask == 0 {
        interestByFd := interestByFd - {fd};
      } else {
        interestByFd := interestByFd[fd := mask];
      }
    }

    /** `remove`, which ignores what the kernel answers. */
    method Remove(fd: nat, accepted: nat)
      modifies this
      ensures View() == Removed(old(View()), fd, accepted)
    {
      var prev: bv8 := if fd in interestByFd then interestByFd[fd] else 0;
      var changes: seq<Change> := [];
      if prev & READABLE != 0 {
        changes := changes + [Change(Registration(fd, ReadFilter), false)];
      }
      if prev & WRITABLE != 0 {
        changes := changes + [Change(Registration(fd, WriteFilter), false)];
      }
      assert changes == Changes(fd, prev, 0);
      if changes != [] {
        var _ := Kevents(changes, accepted);
      }
      interestByFd := interestByFd - {fd};
    }
  }
}
