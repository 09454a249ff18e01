/** The fixed-size worker pool: a mutex-protected queue, a condition variable, a stop flag. */
module ThreadPool {
  import opened Text

  // A step system: each label is one critical section or one notification. A notification
  // happens after the lock is released, and workers may wake for no reason.

  /** A worker is about to evaluate the wait predicate under the lock, asleep on the
      condition variable, running the task with a given ticket, or gone. */
  datatype Pc = Checking | Asleep | Running(ticket: nat) | Exited

  /** `enqueued`, `popped` and `finished` record the past: the task with ticket `k` is
      `enqueued[k]`. `notifies` counts producers between their unlock and their notify. */
  datatype Pool<T> = Pool(
    queue: seq<T>, stop: bool, notifies: nat, notifyAll: bool, workers: seq<Pc>,
    enqueued: seq<T>, popped: nat, finished: set<nat>)

  datatype Label<T> =
    | Enqueue(task: T)
    | EnqueueFrom(w: nat, task: T)
    | NotifyOne(w: nat)
    | NotifyNobody
    | Stop
    | NotifyEveryone
    | Check(w: nat)
    | Finish(w: nat)
    | WakeUp(w: nat)

  /** A pool asked for no threads gets one. */
  function Init<T>(threads: nat): Pool<T> {
    Pool([], false, 0, false, seq(if threads == 0 then 1 else threads, _ => Checking), [], 0, {})
  }

  /** A pool has as many workers as were asked for, and at least one; all of them are about to
      look at the queue, which is empty. */
  lemma InitHasItsThreads<T>(threads: nat)
    ensures |Init<T>(threads).workers| == (if threads > 0 then threads else 1)
    ensures forall w :: 0 <= w < |Init<T>(threads).workers| ==> Init<T>(threads).workers[w] == Checking
    ensures Init<T>(threads).queue == [] && !Init<T>(threads).stop
  {
  }

  predicate At<T>(p: Pool<T>, w: nat, pc: Pc) {
    w < |p.workers| && p.workers[w] == pc
  }

  function Move<T>(p: Pool<T>, w: nat, pc: Pc): Pool<T>
    requires w < |p.workers|
  {
    p.(workers := p.workers[w := pc])
  }

  function Woken(workers: seq<Pc>): (r: seq<Pc>)
    ensures |r| == |workers|
  {
    seq(|workers|, i requires 0 <= i < |workers| => if workers[i] == Asleep then Checking else workers[i])
  }

  function Push<T>(p: Pool<T>, task: T): Pool<T> {
    p.(queue := p.queue + [task], enqueued := p.enqueued + [task], notifies := p.notifies + 1)
  }

  /** The critical section of `workerLoop`: exit, take a task, or go to sleep. */
  function CheckStep<T>(p: Pool<T>, w: nat): Pool<T>
    requires w < |p.workers|
  {
    if p.stop && p.queue == [] then Move(p, w, Exited)
    else if p.queue != [] then
      Move(p, w, Running(p.popped)).(queue := p.queue[1..], popped := p.popped + 1)
    else Move(p, w, Asleep)
  }

  function Step<T>(p: Pool<T>, l: Label<T>): Option<Pool<T>> {
    match l
    case Enqueue(task) => Some(Push(p, task))
    case EnqueueFrom(w, task) =>
      if w < |p.workers| && p.workers[w].Running? then Some(Push(p, task)) else None
    case NotifyOne(w) =>
      if p.notifies > 0 && At(p, w, Asleep) then
        Some(Move(p, w, Checking).(notifies := p.notifies - 1))
      else None
    case NotifyNobody =>
      if p.notifies > 0 && Asleep !in p.workers then Some(p.(notifies := p.notifies - 1)) else None
    case Stop =>
      if !p.stop then Some(p.(stop := true, notifyAll := true)) else None
    case NotifyEveryone =>
      if p.notifyAll then Some(p.(notifyAll := false, workers := Woken(p.workers))) else None
    case Check(w) =>
      if At(p, w, Checking) then Some(CheckStep(p, w)) else None
    case Finish(w) =>
      if w < |p.workers| && p.workers[w].Running? then
        Some(Move(p, w, Checking).(finished := p.finished + {p.workers[w].ticket}))
      else None
    case WakeUp(w) =>
      if At(p, w, Asleep) then Some(Move(p, w, Checking)) else None
  }

  function Run<T>(p: Pool<T>, labels: seq<Label<T>>): Option<Pool<T>>
    decreases |labels|
  {
    if labels == [] then Some(p)
    else match Step(p, labels[0])
      case None => None
      case Some(next) => Run(next, labels[1..])
  }

  // ---------------------------------------------------------------------------------
  // The invariant
  // ---------------------------------------------------------------------------------

  function CheckingCount(workers: seq<Pc>): nat {
    multiset(workers)[Checking]
  }

  /** Tasks leave the queue in the order in which they entered it. */
  ghost predicate Fifo<T>(p: Pool<T>) {
    p.popped <= |p.enqueued| && p.queue == p.enqueued[p.popped..]
  }

  /** Every ticket that was handed out is with exactly one worker or finished, never both. */
  ghost predicate ExactlyOnce<T>(p: Pool<T>) {
    && (forall w :: 0 <= w < |p.workers| && p.workers[w].Running? ==>
          p.workers[w].ticket < p.popped && p.workers[w].ticket !in p.finished)
    && (forall v, w :: 0 <= v < w < |p.workers| && p.workers[v].Running? ==> p.workers[v] != p.workers[w])
    && (forall k :: k in p.finished ==> k < p.popped)
    && (forall k :: 0 <= k < p.popped && k !in p.finished ==> Running(k) in p.workers)
  }

  /** No lost wakeup: while some worker sleeps, every queued task is covered by a
      notification still to come or by a worker about to look. */
  ghost predicate Covered<T>(p: Pool<T>) {
    Asleep in p.workers ==> |p.queue| <= p.notifies + CheckingCount(p.workers)
  }

  ghost predicate StopSeen<T>(p: Pool<T>) {
    && (p.stop && !p.notifyAll ==> Asleep !in p.workers)
    && (Exited in p.workers ==> p.stop)
  }

  ghost predicate Inv<T>(p: Pool<T>) {
    Fifo(p) && ExactlyOnce(p) && Covered(p) && StopSeen(p) && p.workers != []
  }

  lemma MoveCount(workers: seq<Pc>, w: nat, pc: Pc)
    requires w < |workers|
    ensures CheckingCount(workers[w := pc])
         == CheckingCount(workers) - (if workers[w] == Checking then 1 else 0) + (if pc == Checking then 1 else 0)
    ensures forall x :: x in workers[w := pc] ==> x == pc || x in workers
    ensures forall x :: x in workers && x != workers[w] ==> x in workers[w := pc]
  {
    assert workers[w] in workers;
    var moved := workers[w := pc];
    forall x | x in workers && x != workers[w]
      ensures x in moved
    {
      var i :| 0 <= i < |workers| && workers[i] == x;
      assert moved[i] == x;
    }
  }

  lemma WokenMembers(workers: seq<Pc>)
    ensures Asleep !in Woken(workers)
    ensures forall x :: x != Asleep && x != Checking ==> (x in Woken(workers) <==> x in workers)
  {
    forall x | x != Asleep && x != Checking && x in workers
      ensures x in Woken(workers)
    {
      var i :| 0 <= i < |workers| && workers[i] == x;
      assert Woken(workers)[i] == x;
    }
  }

  lemma CoveredStep<T>(p: Pool<T>, l: Label<T>)
    requires Inv(p) && Step(p, l).Some?
    ensures Covered(Step(p, l).value) && StopSeen(Step(p, l).value)
  {
    match l
    case Enqueue(_) =>
    case EnqueueFrom(_, _) =>
    case NotifyOne(w) => MoveCount(p.workers, w, Checking);
    case NotifyNobody =>
    case Stop =>
    case NotifyEveryone => WokenMembers(p.workers);
    case Check(w) => CheckCovered(p, w);
    case Finish(w) => MoveCount(p.workers, w, Checking);
    case WakeUp(w) => MoveCount(p.workers, w, Checking);
  }

  lemma CheckCovered<T>(p: Pool<T>, w: nat)
    requires Inv(p) && At(p, w, Checking)
    ensures Covered(CheckStep(p, w)) && StopSeen(CheckStep(p, w))
  {
    MoveCount(p.workers, w, CheckStep(p, w).workers[w]);
  }

  lemma CheckOnce<T>(p: Pool<T>, w: nat)
    requires Inv(p) && At(p, w, Checking)
    ensures Fifo(CheckStep(p, w)) && ExactlyOnce(CheckStep(p, w))
  {
    var q := CheckStep(p, w);
    MoveCount(p.workers, w, q.workers[w]);
    if p.queue != [] {
      assert p.enqueued[p.popped..][1..] == p.enqueued[p.popped + 1..];
      assert q.workers[w] in q.workers;
    }
  }

  lemma FinishOnce<T>(p: Pool<T>, w: nat)
    requires Inv(p) && w < |p.workers| && p.workers[w].Running?
    ensures ExactlyOnce(Step(p, Finish(w)).value)
  {
    MoveCount(p.workers, w, Checking);
  }

  lemma WakeOnce<T>(p: Pool<T>, q: Pool<T>, w: nat)
    requires Fifo(p) && ExactlyOnce(p) && At(p, w, Asleep)
    requires q == p.(workers := p.workers[w := Checking], notifies := q.notifies)
    ensures Fifo(q) && ExactlyOnce(q)
  {
    MoveCount(p.workers, w, Checking);
  }

  lemma WakeAllOnce<T>(p: Pool<T>)
    requires Fifo(p) && ExactlyOnce(p)
    ensures var q := p.(notifyAll := false, workers := Woken(p.workers)); Fifo(q) && ExactlyOnce(q)
  {
    WokenMembers(p.workers);
  }

  lemma OnceStep<T>(p: Pool<T>, l: Label<T>)
    requires Inv(p) && Step(p, l).Some?
    ensures Fifo(Step(p, l).value) && ExactlyOnce(Step(p, l).value)
  {
    match l
    case NotifyOne(w) => WakeOnce(p, Step(p, l).value, w);
    case NotifyEveryone => WakeAllOnce(p);
    case Check(w) => CheckOnce(p, w);
    case Finish(w) => FinishOnce(p, w);
    case WakeUp(w) => WakeOnce(p, Step(p, l).value, w);
    case _ =>
  }

  /** Every step of every thread keeps the invariant. */
  lemma StepKeeps<T>(p: Pool<T>, l: Label<T>)
    requires Inv(p) && Step(p, l).Some?
    ensures Inv(Step(p, l).value) && |Step(p, l).value.workers| == |p.workers|
  {
    CoveredStep(p, l);
    OnceStep(p, l);
  }

  lemma {:induction false} RunKeeps<T>(p: Pool<T>, labels: seq<Label<T>>)
    requires Inv(p) && Run(p, labels).Some?
    ensures Inv(Run(p, labels).value) && |Run(p, labels).value.workers| == |p.workers|
    decreases |labels|
  {
    if labels != [] {
      StepKeeps(p, labels[0]);
      RunKeeps(Step(p, labels[0]).value, labels[1..]);
    }
  }

  ghost predicate Reachable<T(!new)>(p: Pool<T>) {
    exists threads: nat, labels: seq<Label<T>> :: Run(Init<T>(threads), labels) == Some(p)
  }

  lemma ReachableInv<T(!new)>(p: Pool<T>)
    requires Reachable(p)
    ensures Inv(p)
  {
    var threads: nat, labels: seq<Label<T>> :| Run(Init<T>(threads), labels) == Some(p);
    RunKeeps(Init<T>(threads), labels);
  }

  /** First in, first out, in every run: the tasks started followed by those queued are the
      tasks enqueued, in order, and a started task is with a worker or finished, not both. */
  lemma FifoExactlyOnce<T(!new)>(p: Pool<T>)
    requires Reachable(p)
    ensures p.popped <= |p.enqueued| && p.enqueued[..p.popped] + p.queue == p.enqueued
    ensures forall k :: 0 <= k < p.popped ==> (k in p.finished <==> Running(k) !in p.workers)
    ensures forall k: nat :: k in p.finished || Running(k) in p.workers ==> k < p.popped
  {
    ReachableInv(p);
  }

  /** Exactly once: no two workers have the same task. */
  lemma NoTaskTwice<T(!new)>(p: Pool<T>, v: nat, w: nat)
    requires Reachable(p) && v < w < |p.workers| && p.workers[v].Running? && p.workers[w].Running?
    ensures p.workers[v].ticket != p.workers[w].ticket
  {
    ReachableInv(p);
  }

  /** A step takes a worker out of the pool exactly when it is that worker's look at the
      queue, with the stop flag set and the queue empty. */
  lemma ExitsOnlyWhenStoppedAndEmpty<T>(p: Pool<T>, l: Label<T>, w: nat)
    requires Step(p, l).Some? && w < |p.workers| && p.workers[w] != Exited
    ensures Step(p, l).value.workers[w] == Exited <==> l == Check(w) && p.stop && p.queue == []
  {
  }

  /** No lost wakeup, in every run: while some worker sleeps, there are at most as many queued
      tasks as notifications on their way and workers about to look; and while a task is
      queued and some worker has not exited, a notification is on its way or some worker is
      awake. */
  lemma QueuedTaskIsCovered<T(!new)>(p: Pool<T>, w: nat)
    requires Reachable(p) && w < |p.workers|
    ensures p.workers[w] == Asleep ==> |p.queue| <= p.notifies + CheckingCount(p.workers)
    ensures p.queue != [] && p.workers[w] != Exited ==>
      p.notifies > 0 || Checking in p.workers || p.workers[w].Running?
  {
    ReachableInv(p);
    assert p.workers[w] in p.workers;
  }

  // ---------------------------------------------------------------------------------
  // Nothing is stranded
  // ---------------------------------------------------------------------------------

  /** The steps that need no new task, no stop request and no spurious wakeup. */
  predicate Internal<T>(l: Label<T>) {
    l.NotifyOne? || l.NotifyNobody? || l.NotifyEveryone? || l.Check? || l.Finish?
  }

  predicate Idle(pc: Pc) {
    pc == Asleep || pc == Exited
  }

  /** No internal step is possible. */
  ghost predicate Quiet<T>(p: Pool<T>) {
    p.notifies == 0 && !p.notifyAll && forall w :: 0 <= w < |p.workers| ==> Idle(p.workers[w])
  }

  /** A state that is not quiet is not stuck. */
  lemma NotStuck<T>(p: Pool<T>) returns (l: Label<T>)
    requires !Quiet(p)
    ensures Internal(l) && Step(p, l).Some?
  {
    if p.notifyAll {
      l := NotifyEveryone;
    } else if p.notifies > 0 {
      if Asleep in p.workers {
        var w :| 0 <= w < |p.workers| && p.workers[w] == Asleep;
        l := NotifyOne(w);
      } else {
        l := NotifyNobody;
      }
    } else {
      var w :| 0 <= w < |p.workers| && !Idle(p.workers[w]);
      l := if p.workers[w] == Checking then Check(w) else Finish(w);
    }
  }

  /** Quiet is exactly where internal steps end. */
  lemma QuietExactly<T>(p: Pool<T>)
    ensures Quiet(p) <==> forall l: Label<T> :: Internal(l) ==> Step(p, l).None?
  {
    if !Quiet(p) {
      var l := NotStuck(p);
      assert Internal(l) && Step(p, l).Some?;
    }
  }

  /** Work conservation: a quiet pool that has not been stopped has an empty queue and has
      finished every task it was ever given; one that has been stopped has no worker left. */
  lemma QuietIsDone<T>(p: Pool<T>)
    requires Inv(p) && Quiet(p)
    ensures !p.stop ==> p.queue == [] && forall k :: 0 <= k < |p.enqueued| ==> k in p.finished
    ensures p.stop ==> forall w :: 0 <= w < |p.workers| ==> p.workers[w] == Exited
  {
    assert CheckingCount(p.workers) == 0 by {
      assert Checking !in p.workers;
    }
    assert p.workers[0] in p.workers;
    if !p.stop {
      forall k | 0 <= k < |p.enqueued|
        ensures k in p.finished
      {
        assert Running(k) !in p.workers;
      }
    }
  }

  function Effort(pc: Pc): nat {
    match pc
    case Checking => 1
    case Running(_) => 2
    case _ => 0
  }

  function Busy(workers: seq<Pc>): nat {
    if workers == [] then 0 else Effort(workers[0]) + Busy(workers[1..])
  }

  /** A bound on the internal steps still to come. */
  function Rank<T>(p: Pool<T>): nat {
    2 * |p.queue| + 2 * p.notifies + (if p.notifyAll then |p.workers| + 1 else 0) + Busy(p.workers)
  }

  lemma {:induction false} BusyMove(workers: seq<Pc>, w: nat, pc: Pc)
    requires w < |workers|
    ensures Busy(workers[w := pc]) + Effort(workers[w]) == Busy(workers) + Effort(pc)
  {
    if w == 0 {
      assert workers[w := pc][1..] == workers[1..];
    } else {
      assert workers[w := pc][1..] == workers[1..][w - 1 := pc];
      BusyMove(workers[1..], w - 1, pc);
    }
  }

  lemma {:induction false} BusyWoken(workers: seq<Pc>)
    ensures Busy(Woken(workers)) <= Busy(workers) + |workers|
  {
    if workers != [] {
      assert Woken(workers)[1..] == Woken(workers[1..]);
      BusyWoken(workers[1..]);
    }
  }

  lemma InternalDecreases<T>(p: Pool<T>, l: Label<T>)
    requires Internal(l) && Step(p, l).Some?
    ensures Rank(Step(p, l).value) < Rank(p)
  {
    match l
    case NotifyOne(w) => BusyMove(p.workers, w, Checking);
    case NotifyNobody =>
    case NotifyEveryone => BusyWoken(p.workers);
    case Check(w) => BusyMove(p.workers, w, CheckStep(p, w).workers[w]);
    case Finish(w) => BusyMove(p.workers, w, Checking);
  }

  /** Internal steps cannot go on for ever: their number is bounded from the outset. */
  lemma {:induction false} InternalRunsEnd<T>(p: Pool<T>, labels: seq<Label<T>>)
    requires Run(p, labels).Some? && forall l :: l in labels ==> Internal(l)
    ensures |labels| + Rank(Run(p, labels).value) <= Rank(p)
    decreases |labels|
  {
    if labels != [] {
      assert labels[0] in labels;
      InternalDecreases(p, labels[0]);
      InternalRunsEnd(Step(p, labels[0]).value, labels[1..]);
    }
  }

  /** From every state with the invariant, internal steps alone lead to a quiet one, where
      every task has been finished unless the pool was stopped. */
  lemma {:induction false} PoolSettles<T>(p: Pool<T>) returns (labels: seq<Label<T>>)
    requires Inv(p)
    ensures (forall l :: l in labels ==> Internal(l)) && Run(p, labels).Some?
    ensures var q := Run(p, labels).value;
      && Inv(q) && Quiet(q) && q.enqueued == p.enqueued && q.stop == p.stop
      && (!p.stop ==> forall k :: 0 <= k < |p.enqueued| ==> k in q.finished)
    decreases Rank(p)
  {
    if Quiet(p) {
      QuietIsDone(p);
      return [];
    }
    var l := NotStuck(p);
    var next := Step(p, l).value;
    StepKeeps(p, l);
    InternalDecreases(p, l);
    var more := PoolSettles(next);
    labels := [l] + more;
    assert Run(p, labels) == Run(next, more) by {
      assert labels[0] == l && labels[1..] == more;
    }
  }

  /** Settling is unavoidable: whichever internal steps are taken, once none is possible any
      more every task handed in has been finished, or after stop no worker is left. With
      `InternalRunsEnd`, that is so after at most `Rank(p)` steps. */
  lemma InternalRunsSettle<T>(p: Pool<T>, labels: seq<Label<T>>)
    requires Inv(p) && Run(p, labels).Some? && forall l :: l in labels ==> Internal(l)
    requires forall l: Label<T> :: Internal(l) ==> Step(Run(p, labels).value, l).None?
    ensures var q := Run(p, labels).value;
      && q.enqueued == p.enqueued && q.stop == p.stop
      && (!p.stop ==> forall k :: 0 <= k < |p.enqueued| ==> k in q.finished)
      && (p.stop ==> forall w :: 0 <= w < |q.workers| ==> q.workers[w] == Exited)
  {
    RunKeeps(p, labels);
    InternalAddsNothing(p, labels);
    QuietExactly(Run(p, labels).value);
    QuietIsDone(Run(p, labels).value);
  }

  lemma {:induction false} InternalAddsNothing<T>(p: Pool<T>, labels: seq<Label<T>>)
    requires Run(p, labels).Some? && forall l :: l in labels ==> Internal(l)
    ensures Run(p, labels).value.enqueued == p.enqueued && Run(p, labels).value.stop == p.stop
    decreases |labels|
  {
    if labels != [] {
      assert labels[0] in labels;
      InternalAddsNothing(Step(p, labels[0]).value, labels[1..]);
    }
  }

  // ---------------------------------------------------------------------------------
  // Stopping
  // ---------------------------------------------------------------------------------

  ghost predicate AllExited<T>(p: Pool<T>) {
    forall w :: 0 <= w < |p.workers| ==> p.workers[w] == Exited
  }

  /** Some task is handed in from outside when no worker is left. */
  ghost predicate TooLate<T>(p: Pool<T>, labels: seq<Label<T>>)
    decreases |labels|
  {
    labels != [] &&
    ((labels[0].Enqueue? && AllExited(p))
     || (Step(p, labels[0]).Some? && TooLate(Step(p, labels[0]).value, labels[1..])))
  }

  lemma DrainStep<T>(p: Pool<T>, l: Label<T>)
    requires Inv(p) && Step(p, l).Some? && (AllExited(p) ==> p.queue == []) && !(l.Enqueue? && AllExited(p))
    ensures AllExited(Step(p, l).value) ==> Step(p, l).value.queue == []
  {
    var q := Step(p, l).value;
    if AllExited(q) {
      assert q.workers[0] in q.workers;
      match l
      case NotifyOne(w) => assert q.workers[w] == Exited;
      case NotifyEveryone =>
        forall w | 0 <= w < |p.workers|
          ensures p.workers[w] == Exited
        {
          assert q.workers[w] == Exited;
        }
      case Check(w) => assert q.workers[w] == Exited;
      case Finish(w) => assert q.workers[w] == Exited;
      case WakeUp(w) => assert q.workers[w] == Exited;
      case _ =>
    }
  }

  lemma {:induction false} DrainRun<T>(p: Pool<T>, labels: seq<Label<T>>)
    requires Inv(p) && (AllExited(p) ==> p.queue == []) && !TooLate(p, labels) && Run(p, labels).Some?
    ensures var q := Run(p, labels).value; Inv(q) && (AllExited(q) ==> q.queue == [])
    decreases |labels|
  {
    if labels != [] {
      DrainStep(p, labels[0]);
      StepKeeps(p, labels[0]);
      DrainRun(Step(p, labels[0]).value, labels[1..]);
    }
  }

  /** After the last worker has left no task is started or finished, and none leaves the
      queue. */
  lemma {:induction false} NothingRunsAfterExit<T>(p: Pool<T>, labels: seq<Label<T>>)
    requires AllExited(p) && Run(p, labels).Some?
    ensures var q := Run(p, labels).value;
      AllExited(q) && q.popped == p.popped && q.finished == p.finished && p.queue <= q.queue
    decreases |labels|
  {
    if labels != [] {
      NothingRunsAfterExit(Step(p, labels[0]).value, labels[1..]);
    }
  }

  /** A late task stays in the queue. */
  lemma {:induction false} LateTaskStays<T>(p: Pool<T>, labels: seq<Label<T>>)
    requires TooLate(p, labels) && Run(p, labels).Some?
    ensures AllExited(Run(p, labels).value) && Run(p, labels).value.queue != []
    decreases |labels|
  {
    var next := Step(p, labels[0]).value;
    if labels[0].Enqueue? && AllExited(p) {
      NothingRunsAfterExit(next, labels[1..]);
    } else {
      LateTaskStays(next, labels[1..]);
    }
  }

  ghost predicate Drained<T>(p: Pool<T>) {
    p.queue == [] && forall k :: 0 <= k < |p.enqueued| ==> k in p.finished
  }

  /** Drain on stop, exactly: once all workers have exited, which is when the destructor
      returns, every task was run exactly once if and only if none was handed in from outside
      after the last worker had left. */
  lemma DrainedUnlessTooLate<T>(threads: nat, labels: seq<Label<T>>)
    requires Run(Init<T>(threads), labels).Some? && AllExited(Run(Init<T>(threads), labels).value)
    ensures Drained(Run(Init<T>(threads), labels).value) <==> !TooLate(Init<T>(threads), labels)
  {
    var p := Init<T>(threads);
    assert p.workers[0] == Checking;
    if TooLate(p, labels) {
      LateTaskStays(p, labels);
    } else {
      DrainRun(p, labels);
      var q := Run(p, labels).value;
      forall k | 0 <= k < |q.enqueued|
        ensures k in q.finished
      {
        assert Running(k) !in q.workers;
      }
    }
  }

  /** After the stop request only running tasks hand in more tasks. */
  ghost predicate Orderly<T>(p: Pool<T>, labels: seq<Label<T>>)
    decreases |labels|
  {
    labels == [] ||
    ((labels[0].Enqueue? ==> !p.stop)
     && (Step(p, labels[0]).Some? ==> Orderly(Step(p, labels[0]).value, labels[1..])))
  }

  lemma {:induction false} OrderlyIsInTime<T>(p: Pool<T>, labels: seq<Label<T>>)
    requires Inv(p) && Orderly(p, labels)
    ensures !TooLate(p, labels)
    decreases |labels|
  {
    if labels != [] {
      assert p.workers[0] in p.workers;
      if Step(p, labels[0]).Some? {
        StepKeeps(p, labels[0]);
        OrderlyIsInTime(Step(p, labels[0]).value, labels[1..]);
      }
    }
  }

  /** In particular, if after stop only running tasks hand in tasks, every task is run. */
  lemma DrainedAtTheEnd<T>(threads: nat, labels: seq<Label<T>>)
    requires Orderly(Init<T>(threads), labels) && Run(Init<T>(threads), labels).Some?
    ensures AllExited(Run(Init<T>(threads), labels).value) ==> Drained(Run(Init<T>(threads), labels).value)
  {
    assert Init<T>(threads).workers[0] == Checking;
    OrderlyIsInTime(Init<T>(threads), labels);
    if AllExited(Run(Init<T>(threads), labels).value) {
      DrainedUnlessTooLate(threads, labels);
    }
  }

  /** The loss: one worker leaves an empty stopped pool, and the next task is stranded. */
  lemma LateTaskIsLost<T>(task: T)
    ensures var labels := [Stop, Check(0), Enqueue(task)];
      var q := Run(Init<T>(1), labels);
      q.Some? && AllExited(q.value) && q.value.queue == [task] && q.value.finished == {}
  {
    var p0 := Init<T>(1);
    var p1 := Step(p0, Stop).value;
    var p2 := CheckStep(p1, 0);
    var p3 := Push(p2, task);
    var l1: seq<Label<T>>, l0: seq<Label<T>> := [Enqueue(task)], [Check(0), Enqueue(task)];
    assert [Stop, Check(0), Enqueue(task)][1..] == l0 && l0[1..] == l1 && l1[1..] == [];
    assert p2.queue + [task] == [task];
    assert Run(p2, l1) == Run(p3, []) == Some(p3);
    assert Run(p1, l0) == Run(p2, l1);
  }
}
