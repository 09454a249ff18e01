/** Progress: without new connections and new readiness, the hand-off always settles in a
    state in which every surviving connection is armed. */
module HandoffProgress {
  import opened Seqs
  import opened Workers
  import opened Handoff
  import opened HandoffOwnership
  import opened HandoffSafety

  function StageWeight(w: Worker): nat {
    match w.stage
    case Dequeued => 6
    case Holding(_) => 5
    case Finished(_) => 4
  }

  function RunningWeight(running: seq<Worker>): nat {
    if running == [] then 0 else StageWeight(running[0]) + RunningWeight(running[1..])
  }

  function HandWeight(pc: Pc): nat {
    match pc
    case Adding(_) => 1
    case Enqueuing(_) => 8
    case Erasing(_, _) => 1
    case _ => 0
  }

  /** How much work is left: each token counts the stations it still has to pass. */
  function Weight(s: State): nat {
    9 * |s.events| + HandWeight(s.pc) + 7 * |s.queue| + RunningWeight(s.running)
    + 3 * |s.pending| + 2 * |s.batch|
  }

  /** Labels by which the environment brings new work. */
  predicate Arrival(l: Label) {
    l.Accept? || (l.Wait? && l.events != [])
  }

  ghost predicate NoArrivals(labels: seq<Label>) {
    forall l :: l in labels ==> !Arrival(l)
  }

  /** Labels that move a token or consume an event. */
  predicate Moves(l: Label) {
    l.ApplyNext? || l.DispatchNext? || l.Add? || l.Enqueue? || l.Erase? || IsWorkerLabel(l)
  }

  // ---------------------------------------------------------------------------------
  // Sums over the workers
  // ---------------------------------------------------------------------------------

  lemma {:induction false} RunningSplit(a: seq<Worker>, b: seq<Worker>)
    ensures RunningWeight(a + b) == RunningWeight(a) + RunningWeight(b)
  {
    if a == [] {
      assert a + b == b;
    } else {
      assert (a + b)[1..] == a[1..] + b;
      RunningSplit(a[1..], b);
    }
  }

  lemma OneWorker(w: Worker)
    ensures RunningWeight([w]) == StageWeight(w)
  {
    assert [w][1..] == [];
  }

  lemma RunningReplace(running: seq<Worker>, i: nat, w: Worker)
    requires i < |running|
    ensures RunningWeight(running[i := w]) == RunningWeight(Remove(running, i)) + StageWeight(w)
  {
    assert running[i := w] == running[..i] + ([w] + running[i + 1..]);
    RunningSplit(running[..i], [w] + running[i + 1..]);
    RunningSplit([w], running[i + 1..]);
    OneWorker(w);
    RunningSplit(running[..i], running[i + 1..]);
  }

  lemma RunningPick(running: seq<Worker>, i: nat)
    requires i < |running|
    ensures RunningWeight(running) == RunningWeight(Remove(running, i)) + StageWeight(running[i])
  {
    RunningReplace(running, i, running[i]);
    assert running[i := running[i]] == running;
  }

  // ---------------------------------------------------------------------------------
  // The measure
  // ---------------------------------------------------------------------------------

  lemma WorkerStepDecreases(cfg: Config, s: State, l: Label)
    requires IsWorkerLabel(l) && Step(cfg, s, l).Some?
    ensures Weight(Step(cfg, s, l).value) < Weight(s)
  {
    match l
    case Take =>
      RunningSplit(s.running, [Worker(s.queue[0], Dequeued)]);
      OneWorker(Worker(s.queue[0], Dequeued));
    case Lookup(i) =>
      RunningPick(s.running, i);
      if s.running[i].tok.fd in s.connections {
        RunningReplace(s.running, i, Step(cfg, s, l).value.running[i]);
      }
    case Act(i, env) =>
      RunningPick(s.running, i);
      RunningReplace(s.running, i, Step(cfg, s, l).value.running[i]);
    case Post(i) => RunningPick(s.running, i);
  }

  lemma ReactorStepDecreases(cfg: Config, s: State, l: Label)
    requires !IsWorkerLabel(l) && !Arrival(l) && ReactorStep(cfg, s, l).Some?
    requires l.Wait? || l.Loop? || l.Swap? ==> s.events == [] && (l.Swap? ==> s.batch == [])
    ensures Weight(ReactorStep(cfg, s, l).value) <= Weight(s)
    ensures Moves(l) || (l.Swap? && s.pending != []) ==> Weight(ReactorStep(cfg, s, l).value) < Weight(s)
  {
  }

  /** No step that brings no new work increases the measure, and every step that moves a
      token or consumes an event strictly decreases it. */
  lemma StepDecreases(cfg: Config, s: State, l: Label)
    requires LoopAgrees(cfg, s) && !Arrival(l) && Step(cfg, s, l).Some?
    ensures Weight(Step(cfg, s, l).value) <= Weight(s)
    ensures Moves(l) || (l.Swap? && s.pending != []) ==> Weight(Step(cfg, s, l).value) < Weight(s)
  {
    if IsWorkerLabel(l) {
      WorkerStepDecreases(cfg, s, l);
    } else if !IsOtherLabel(l) {
      ReactorStepDecreases(cfg, s, l);
    }
  }

  function CountMoves(labels: seq<Label>): nat {
    if labels == [] then 0 else (if Moves(labels[0]) then 1 else 0) + CountMoves(labels[1..])
  }

  /** A run without arrivals makes at most as many moves as there was work. */
  lemma {:induction false} MovesAreBounded(cfg: Config, s: State, labels: seq<Label>)
    requires Inv(cfg, s) && !cfg.hangups && Run(cfg, s, labels).Some? && NoArrivals(labels)
    ensures CountMoves(labels) + Weight(Run(cfg, s, labels).value) <= Weight(s)
    decreases |labels|
  {
    if labels != [] {
      assert labels[0] in labels;
      StepDecreases(cfg, s, labels[0]);
      StepKeeps(cfg, s, labels[0]);
      MovesAreBounded(cfg, Step(cfg, s, labels[0]).value, labels[1..]);
    }
  }

  // ---------------------------------------------------------------------------------
  // Settling
  // ---------------------------------------------------------------------------------

  /** Some answer of the environment; any would do. */
  const SOME_ENV: Env :=
    Env(Again, NoneHealthy, BAD_REQUEST, [])

  lemma HolderCanAct(cfg: Config, s: State, i: nat, env: Env)
    requires SafeInv(cfg, s) && i < |s.running| && s.running[i].stage.Holding?
    ensures Step(cfg, s, Act(i, env)).Some?
  {
    assert WorkerFits(cfg, s, s.running[i]);
  }

  /** A worker that is busy can always take its next step. */
  lemma WorkerCanStep(cfg: Config, s: State) returns (l: Label)
    requires SafeInv(cfg, s) && s.running != []
    ensures IsWorkerLabel(l) && Step(cfg, s, l).Some?
  {
    var w := s.running[0];
    match w.stage
    case Dequeued => l := Lookup(0);
    case Holding(_) =>
      HolderCanAct(cfg, s, 0, SOME_ENV);
      l := Act(0, SOME_ENV);
    case Finished(_) => l := Post(0);
  }

  /** How many steps the reactor is from its next move. */
  function Ahead(s: State): nat {
    match s.pc
    case Top => 2
    case Dispatching => if s.events != [] then 1 else 3
    case Accepting => if s.events != [] then 2 else 4
    case Applying => if s.batch != [] then 1 else 4
    case _ => 1
  }

  /** With no work for the workers, the reactor's next step is a move or brings it closer to
      its next move. */
  lemma ReactorAdvances(cfg: Config, s: State) returns (l: Label)
    requires LoopAgrees(cfg, s) && s.queue == [] && s.running == [] && Weight(s) > 0
    ensures !Arrival(l) && !IsWorkerLabel(l) && !IsOtherLabel(l) && ReactorStep(cfg, s, l).Some?
    ensures Moves(l) || (Ahead(ReactorStep(cfg, s, l).value) < Ahead(s) && Weight(ReactorStep(cfg, s, l).value) > 0)
  {
    match s.pc
    case Top => l := Swap;
    case Applying => l := if s.batch != [] then ApplyNext else Wait([]);
    case Dispatching => l := if s.events != [] then DispatchNext else Loop;
    case Accepting => l := AcceptDone;
    case Adding(_) => l := Add;
    case Enqueuing(_) => l := Enqueue;
    case Erasing(_, _) => l := Erase;
  }

  lemma SomeAdvance(cfg: Config, s: State) returns (l: Label)
    requires SafeInv(cfg, s) && cfg.workers > 0 && Weight(s) > 0
    ensures !Arrival(l) && Step(cfg, s, l).Some?
    ensures Moves(l) || (Ahead(Step(cfg, s, l).value) < Ahead(s) && Weight(Step(cfg, s, l).value) > 0)
  {
    if s.running != [] {
      l := WorkerCanStep(cfg, s);
    } else if s.queue != [] {
      l := Take;
    } else {
      l := ReactorAdvances(cfg, s);
    }
  }

  lemma CanStep(cfg: Config, s: State) returns (l: Label)
    requires SafeInv(cfg, s) && cfg.workers > 0 && Weight(s) > 0
    ensures !Arrival(l) && Step(cfg, s, l).Some?
    ensures var t := Step(cfg, s, l).value;
      Weight(t) < Weight(s) || (Weight(t) == Weight(s) && Ahead(t) < Ahead(s))
  {
    l := SomeAdvance(cfg, s);
    StepDecreases(cfg, s, l);
  }

  /** When nothing is left to do, every live connection is armed. */
  lemma SettledIsArmed(cfg: Config, s: State)
    requires Inv(cfg, s) && Weight(s) == 0
    ensures forall fd :: fd in s.connections ==> fd in s.armed
  {
    assert s.running == [];
    assert WorkerToks([]) == [] && RearmToks([]) == [];
    assert Tokens(s) == multiset(Pairs(ArmedIds(s.armed)));
    forall fd | fd in s.connections
      ensures fd in s.armed
    {
      var t := Tok(fd, s.connections[fd]);
      assert t in Pairs(s.connections);
      assert t in Tokens(s);
      assert t in Pairs(ArmedIds(s.armed));
    }
  }

  lemma OneStep(cfg: Config, s: State, l: Label, rest: seq<Label>)
    requires Step(cfg, s, l).Some?
    ensures Run(cfg, s, [l] + rest) == Run(cfg, Step(cfg, s, l).value, rest)
    ensures CountMoves([l] + rest) == (if Moves(l) then 1 else 0) + CountMoves(rest)
    ensures !Arrival(l) && NoArrivals(rest) ==> NoArrivals([l] + rest)
  {
    assert ([l] + rest)[1..] == rest;
  }

  /** Settling: from every reachable state, with at least one worker and no arrivals, the
      threads can go on until every live connection is armed and nothing is left to do. */
  lemma {:induction false} Settles(cfg: Config, s: State) returns (labels: seq<Label>)
    requires SafeInv(cfg, s) && !cfg.hangups && cfg.workers > 0
    ensures NoArrivals(labels) && Run(cfg, s, labels).Some?
    ensures var t := Run(cfg, s, labels).value;
      Weight(t) == 0 && forall fd :: fd in t.connections ==> fd in t.armed
    decreases Weight(s), Ahead(s)
  {
    if Weight(s) == 0 {
      SettledIsArmed(cfg, s);
      return [];
    }
    var l := CanStep(cfg, s);
    var next := Step(cfg, s, l).value;
    StepSafe(cfg, s, l);
    var more := Settles(cfg, next);
    OneStep(cfg, s, l, more);
    labels := [l] + more;
  }

  // ---------------------------------------------------------------------------------
  // Settling is unavoidable
  // ---------------------------------------------------------------------------------

  /** The steps after which, at the latest, the reactor comes to a re-arm that was posted. */
  const TURN: nat := 4

  /** No run of at most one turn, without arrivals, moves a token or consumes an event. */
  ghost predicate NothingMoves(cfg: Config, s: State) {
    forall labels :: |labels| <= TURN && NoArrivals(labels) && Run(cfg, s, labels).Some? ==> CountMoves(labels) == 0
  }

  /** While work is left, a run within one turn moves something. */
  lemma {:induction false} SomethingMoves(cfg: Config, s: State) returns (labels: seq<Label>)
    requires SafeInv(cfg, s) && !cfg.hangups && cfg.workers > 0 && Weight(s) > 0
    ensures |labels| <= Ahead(s) && NoArrivals(labels) && Run(cfg, s, labels).Some? && CountMoves(labels) > 0
    decreases Ahead(s)
  {
    var l := SomeAdvance(cfg, s);
    var more: seq<Label> := [];
    if !Moves(l) {
      StepSafe(cfg, s, l);
      more := SomethingMoves(cfg, Step(cfg, s, l).value);
    }
    OneStep(cfg, s, l, more);
    labels := [l] + more;
  }

  /** Settled is exactly where moves end. */
  lemma SettledExactly(cfg: Config, s: State)
    requires SafeInv(cfg, s) && !cfg.hangups && cfg.workers > 0
    ensures NothingMoves(cfg, s) <==> Weight(s) == 0
  {
    if Weight(s) > 0 {
      var labels := SomethingMoves(cfg, s);
      assert CountMoves(labels) > 0;
    } else {
      forall labels | |labels| <= TURN && NoArrivals(labels) && Run(cfg, s, labels).Some?
        ensures CountMoves(labels) == 0
      {
        MovesAreBounded(cfg, s, labels);
      }
    }
  }

  /** Settling is unavoidable: whichever steps the threads take, once no run within one turn
      moves anything any more, nothing is left to do and every live connection is armed. With
      `MovesAreBounded`, that is so after at most `Weight(s)` moves. */
  lemma EveryRunSettles(cfg: Config, s: State, labels: seq<Label>)
    requires SafeInv(cfg, s) && !cfg.hangups && cfg.workers > 0 && Run(cfg, s, labels).Some?
    requires NothingMoves(cfg, Run(cfg, s, labels).value)
    ensures var t := Run(cfg, s, labels).value;
      Weight(t) == 0 && forall fd :: fd in t.connections ==> fd in t.armed
  {
    RunSafe(cfg, s, labels);
    SettledExactly(cfg, Run(cfg, s, labels).value);
    SettledIsArmed(cfg, Run(cfg, s, labels).value);
  }
}
