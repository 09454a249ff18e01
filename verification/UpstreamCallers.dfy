/** Concurrent callers of `pickNext`: each takes its ticket in one atomic step and then reads
    the health flags one at a time, while the health checker flips them. */
module UpstreamCallers {
  import opened Text
  import opened Seqs
  import opened UpstreamPool

  /** A call in progress: the how-manieth increment it made and the flags it has seen. */
  datatype Call = Call(issue: nat, seen: seq<bool>)

  datatype Done = Done(call: Call, result: Option<nat>)

  datatype System = System(healthy: seq<bool>, issued: nat, calls: seq<Call>, done: seq<Done>)

  /** A caller takes its ticket, a caller reads one flag, or the health checker flips one. */
  datatype Label = Begin | Read(c: nat) | Flip(u: nat)

  function Ticket(c: Call): nat {
    c.issue % WRAP
  }

  /** The call after its next read. */
  function Extended(healthy: seq<bool>, c: Call): Call
    requires healthy != []
  {
    c.(seen := c.seen + [Up(healthy, Ticket(c) + |c.seen|)])
  }

  /** The result a call returns after its latest read, if that read ends it. */
  function Verdict(healthy: seq<bool>, c: Call): Option<Option<nat>>
    requires healthy != [] && c.seen != []
  {
    if c.seen[|c.seen| - 1] then Some(Some(Residue(Ticket(c) + |c.seen| - 1, |healthy|)))
    else if |c.seen| == |healthy| then Some(None)
    else None
  }

  function ReadStep(s: System, c: nat): System
    requires s.healthy != [] && c < |s.calls|
  {
    var call := Extended(s.healthy, s.calls[c]);
    match Verdict(s.healthy, call)
    case Some(result) => s.(calls := Remove(s.calls, c), done := s.done + [Done(call, result)])
    case None => s.(calls := s.calls[c := call])
  }

  function Step(s: System, l: Label): Option<System> {
    if s.healthy == [] then None
    else match l
      case Begin => Some(s.(issued := s.issued + 1, calls := s.calls + [Call(s.issued, [])]))
      case Read(c) =>
        if c >= |s.calls| then None else Some(ReadStep(s, c))
      case Flip(u) =>
        if u >= |s.healthy| then None else Some(s.(healthy := s.healthy[u := !s.healthy[u]]))
  }

  function Run(s: System, labels: seq<Label>): Option<System>
    decreases |labels|
  {
    if labels == [] then Some(s)
    else match Step(s, labels[0])
      case None => None
      case Some(next) => Run(next, labels[1..])
  }

  ghost predicate NoFlips(labels: seq<Label>) {
    forall l :: l in labels ==> !l.Flip?
  }

  function Start(healthy: seq<bool>): System {
    System(healthy, 0, [], [])
  }

  /** What a call saw justifies what it returned: an upstream it saw healthy, after seeing
      every earlier one unhealthy; or nothing, after seeing every one unhealthy. */
  ghost predicate Justified(n: nat, d: Done)
    requires n > 0
  {
    JustifiedBy(n, Ticket(d.call), d.call.seen, d.result)
  }

  ghost predicate JustifiedBy(n: nat, ticket: nat, seen: seq<bool>, result: Option<nat>)
    requires n > 0
  {
    match result
    case Some(u) =>
      && 0 < |seen| <= n && seen[|seen| - 1] && u == Residue(ticket + |seen| - 1, n)
      && forall i :: 0 <= i < |seen| - 1 ==> !seen[i]
    case None => |seen| == n && forall i :: 0 <= i < n ==> !seen[i]
  }

  ghost predicate StillLooking(n: nat, c: Call) {
    |c.seen| < n && forall i :: 0 <= i < |c.seen| ==> !c.seen[i]
  }

  ghost predicate AllJustified(n: nat, s: System)
    requires n > 0
  {
    && |s.healthy| == n
    && (forall c :: c in s.calls ==> StillLooking(n, c))
    && (forall d :: d in s.done ==> Justified(n, d))
  }

  lemma StepJustified(n: nat, s: System, l: Label)
    requires n > 0 && AllJustified(n, s) && Step(s, l).Some?
    ensures AllJustified(n, Step(s, l).value)
  {
    if l.Read? {
      assert StillLooking(n, s.calls[l.c]);
    }
  }

  lemma {:induction false} RunJustified(n: nat, s: System, labels: seq<Label>)
    requires n > 0 && AllJustified(n, s) && Run(s, labels).Some?
    ensures AllJustified(n, Run(s, labels).value)
    decreases |labels|
  {
    if labels != [] {
      StepJustified(n, s, labels[0]);
      RunJustified(n, Step(s, labels[0]).value, labels[1..]);
    }
  }

  /** Under any interleaving of callers and any flips during a scan, every returned upstream
      was seen healthy by that very call and a call that returned none saw all unhealthy. */
  lemma ResultsAreJustified(healthy: seq<bool>, labels: seq<Label>, d: Done)
    requires healthy != [] && Run(Start(healthy), labels).Some?
    requires d in Run(Start(healthy), labels).value.done
    ensures Justified(|healthy|, d)
  {
    RunJustified(|healthy|, Start(healthy), labels);
  }

  lemma StartResidue(n: nat, ticket: nat, views: seq<seq<bool>>, m: nat)
    requires n > 0 && Views(n, views)
    ensures forall i :: 0 <= i < |views| ==> Up(views[i], Residue(ticket, n) + i) == Up(views[i], ticket + i)
    ensures Residue(Residue(ticket, n) + m, n) == Residue(ticket + m, n)
  {
    forall i | 0 <= i < |views|
      ensures Up(views[i], Residue(ticket, n) + i) == Up(views[i], ticket + i)
    {
      ResidueAdd(ticket, i, n);
    }
    ResidueAdd(ticket, m, n);
  }

  /** The scan of `PickNext` against changing flags ends like a call of this system that saw
      the same flags. */
  lemma ScanIsJustified(n: nat, ticket: nat, views: seq<seq<bool>>) returns (seen: seq<bool>)
    requires n > 0 && Views(n, views)
    ensures JustifiedBy(n, ticket, seen, ScanViews(Residue(ticket, n), views))
    ensures |seen| <= n && forall i :: 0 <= i < |seen| ==> seen[i] == Up(views[i], ticket + i)
  {
    var start := Residue(ticket, n);
    var m := ViewsJustify(n, start, views);
    StartResidue(n, ticket, views, m);
    var result := ScanViews(start, views);
    var len := if result.Some? then m + 1 else m;
    seen := seq(len, i requires 0 <= i < len => Up(views[i], ticket + i));
    forall i | 0 <= i < len
      ensures seen[i] == Up(views[i], start + i)
    {
      assert Up(views[i], start + i) == Up(views[i], ticket + i);
    }
    SeenJustifies(n, ticket, seen, m, result);
  }

  lemma SeenJustifies(n: nat, ticket: nat, seen: seq<bool>, m: nat, result: Option<nat>)
    requires n > 0 && m <= |seen| <= n && forall i :: 0 <= i < m ==> !seen[i]
    requires match result
      case Some(u) => |seen| == m + 1 && seen[m] && u == Residue(ticket + m, n)
      case None => |seen| == m == n
    ensures JustifiedBy(n, ticket, seen, result)
  {
  }

  // ---------------------------------------------------------------------------------
  // Tickets are distinct until the counter wraps
  // ---------------------------------------------------------------------------------

  function CallIssues(calls: seq<Call>): seq<nat> {
    seq(|calls|, i requires 0 <= i < |calls| => calls[i].issue)
  }

  function DoneIssues(done: seq<Done>): seq<nat> {
    seq(|done|, i requires 0 <= i < |done| => done[i].call.issue)
  }

  /** The increments of all calls, in progress and finished. */
  function Issues(s: System): seq<nat> {
    CallIssues(s.calls) + DoneIssues(s.done)
  }

  function Below(n: nat): seq<nat> {
    seq(n, i requires 0 <= i < n => i)
  }

  /** Every increment belongs to exactly one call. */
  ghost predicate Ticketed(s: System) {
    multiset(Issues(s)) == multiset(Below(s.issued))
  }

  lemma IssuesBag(s: System)
    ensures multiset(Issues(s)) == multiset(CallIssues(s.calls)) + multiset(DoneIssues(s.done))
  {
  }

  lemma CallRemove(calls: seq<Call>, i: nat)
    requires i < |calls|
    ensures multiset(CallIssues(calls)) == multiset(CallIssues(Remove(calls, i))) + multiset{calls[i].issue}
  {
    RemoveBag(CallIssues(calls), i);
    assert CallIssues(Remove(calls, i)) == Remove(CallIssues(calls), i);
  }

  lemma DoneSnoc(done: seq<Done>, d: Done)
    ensures multiset(DoneIssues(done + [d])) == multiset(DoneIssues(done)) + multiset{d.call.issue}
  {
    assert DoneIssues(done + [d]) == DoneIssues(done) + [d.call.issue];
  }

  lemma BeginTicketed(s: System)
    requires Ticketed(s)
    ensures Ticketed(s.(issued := s.issued + 1, calls := s.calls + [Call(s.issued, [])]))
  {
    var t := s.(issued := s.issued + 1, calls := s.calls + [Call(s.issued, [])]);
    assert CallIssues(t.calls) == CallIssues(s.calls) + [s.issued];
    assert Below(s.issued + 1) == Below(s.issued) + [s.issued];
    IssuesBag(s);
    IssuesBag(t);
  }

  lemma ReadTicketed(s: System, c: nat)
    requires Ticketed(s) && s.healthy != [] && c < |s.calls|
    ensures Ticketed(ReadStep(s, c))
  {
    var call := Extended(s.healthy, s.calls[c]);
    var t := ReadStep(s, c);
    match Verdict(s.healthy, call)
    case Some(result) =>
      CallRemove(s.calls, c);
      DoneSnoc(s.done, Done(call, result));
      IssuesBag(s);
      IssuesBag(t);
    case None =>
      assert CallIssues(t.calls) == CallIssues(s.calls);
  }

  lemma {:induction false} RunTicketed(s: System, labels: seq<Label>)
    requires Ticketed(s) && Run(s, labels).Some?
    ensures Ticketed(Run(s, labels).value)
    decreases |labels|
  {
    if labels != [] {
      match labels[0] {
        case Begin => BeginTicketed(s);
        case Read(c) => ReadTicketed(s, c);
        case Flip(_) =>
      }
      RunTicketed(Step(s, labels[0]).value, labels[1..]);
    }
  }

  lemma StartTicketed(healthy: seq<bool>)
    ensures Ticketed(Start(healthy))
  {
    assert CallIssues([]) == [] && DoneIssues([]) == [] && Below(0) == [];
    IssuesBag(Start(healthy));
  }

  lemma {:induction false} BagOfDistinct(n: nat, x: nat)
    ensures multiset(Below(n))[x] == if x < n then 1 else 0
  {
    if n > 0 {
      BagOfDistinct(n - 1, x);
      assert Below(n) == Below(n - 1) + [n - 1];
    } else {
      assert Below(0) == [];
    }
  }

  lemma IssuesDistinct(s: System, a: nat, b: nat)
    requires Ticketed(s) && a < b < |Issues(s)|
    ensures Issues(s)[a] < s.issued && Issues(s)[a] != Issues(s)[b]
  {
    var all := Issues(s);
    BagOfDistinct(s.issued, all[a]);
    RemoveBag(all, b);
    assert all[a] in multiset(all);
    assert Remove(all, b)[a] == all[a];
    assert all[a] in multiset(Remove(all, b));
  }

  lemma IssueExists(s: System, x: nat)
    requires Ticketed(s) && x < s.issued
    ensures exists a :: 0 <= a < |Issues(s)| && Issues(s)[a] == x
  {
    BagOfDistinct(s.issued, x);
    assert x in multiset(Issues(s));
  }

  /** No two calls, in progress or finished, have the same ticket. */
  ghost predicate TicketsDistinct(s: System) {
    forall a, b :: 0 <= a < b < |Issues(s)| ==> Issues(s)[a] % WRAP != Issues(s)[b] % WRAP
  }

  /** Under any interleaving and any flips, every increment of the counter belongs to exactly
      one call, and the calls' tickets are distinct exactly until the counter has wrapped. */
  lemma DistinctUntilWrap(healthy: seq<bool>, labels: seq<Label>)
    requires Run(Start(healthy), labels).Some?
    ensures var s := Run(Start(healthy), labels).value;
      && (forall a, b :: 0 <= a < b < |Issues(s)| ==> Issues(s)[a] != Issues(s)[b])
      && (TicketsDistinct(s) <==> s.issued <= WRAP)
  {
    StartTicketed(healthy);
    RunTicketed(Start(healthy), labels);
    var s := Run(Start(healthy), labels).value;
    forall a, b | 0 <= a < b < |Issues(s)|
      ensures Issues(s)[a] != Issues(s)[b] && Issues(s)[a] < s.issued && Issues(s)[b] < s.issued
    {
      IssuesDistinct(s, a, b);
      BagOfDistinct(s.issued, Issues(s)[b]);
      assert Issues(s)[b] in multiset(Issues(s));
    }
    if s.issued <= WRAP {
      forall a, b | 0 <= a < b < |Issues(s)|
        ensures Issues(s)[a] % WRAP != Issues(s)[b] % WRAP
      {
        WrapBelow(Issues(s)[a]);
        WrapBelow(Issues(s)[b]);
      }
    } else {
      SameTicketTwice(s);
    }
  }

  lemma WrapBelow(k: nat)
    ensures k < WRAP ==> k % WRAP == k
    ensures k == WRAP ==> k % WRAP == 0
  {
  }

  lemma SameTicketTwice(s: System)
    requires Ticketed(s) && s.issued > WRAP
    ensures !TicketsDistinct(s)
  {
    IssueExists(s, 0);
    IssueExists(s, WRAP);
    WrapBelow(0);
    WrapBelow(WRAP);
    var a :| 0 <= a < |Issues(s)| && Issues(s)[a] == 0;
    var b :| 0 <= b < |Issues(s)| && Issues(s)[b] == WRAP;
    if a < b {
      assert Issues(s)[a] % WRAP == Issues(s)[b] % WRAP;
    } else {
      assert Issues(s)[b] % WRAP == Issues(s)[a] % WRAP;
    }
  }

  // ---------------------------------------------------------------------------------
  // Interleaving does not disturb the distribution
  // ---------------------------------------------------------------------------------

  /** While the flags stand still: the flags seen are the flags there are, and a finished call
      returned the pick of its ticket. */
  ghost predicate Steady(healthy: seq<bool>, s: System)
    requires healthy != []
  {
    && s.healthy == healthy
    && (forall c :: c in s.calls ==> CallSteady(healthy, c))
    && (forall d :: d in s.done ==> d.result == Pick(healthy, Ticket(d.call)))
  }

  ghost predicate CallSteady(healthy: seq<bool>, c: Call)
    requires healthy != []
  {
    |c.seen| < |healthy| && forall k :: Ticket(c) <= k < Ticket(c) + |c.seen| ==> !Up(healthy, k)
  }

  lemma BeginSteady(healthy: seq<bool>, s: System)
    requires healthy != [] && Steady(healthy, s)
    ensures Steady(healthy, Step(s, Begin).value)
  {
    assert CallSteady(healthy, Call(s.issued, []));
  }

  /** The read that ends a call returns the pick of its ticket. */
  lemma LastReadPicks(healthy: seq<bool>, c: Call)
    requires healthy != [] && CallSteady(healthy, c)
    ensures var call := Extended(healthy, c);
      match Verdict(healthy, call)
      case Some(result) => result == Pick(healthy, Ticket(c))
      case None => CallSteady(healthy, call)
  {
    var t, k := Ticket(c), Ticket(c) + |c.seen|;
    PickIsScan(healthy, t);
    if Up(healthy, k) {
      ScanHits(healthy, t, k, |healthy|);
    } else if |c.seen| + 1 == |healthy| {
      var m := ScanFinds(healthy, t, |healthy|);
    }
  }

  lemma ReturnSteady(healthy: seq<bool>, s: System, c: nat, d: Done)
    requires healthy != [] && Steady(healthy, s) && c < |s.calls|
    requires d.call.issue == s.calls[c].issue && d.result == Pick(healthy, Ticket(d.call))
    ensures Steady(healthy, s.(calls := Remove(s.calls, c), done := s.done + [d]))
  {
  }

  lemma ContinueSteady(healthy: seq<bool>, s: System, c: nat, call: Call)
    requires healthy != [] && Steady(healthy, s) && c < |s.calls|
    requires call.issue == s.calls[c].issue && CallSteady(healthy, call)
    ensures Steady(healthy, s.(calls := s.calls[c := call]))
  {
  }

  lemma ReadSteady(healthy: seq<bool>, s: System, c: nat)
    requires healthy != [] && Steady(healthy, s) && c < |s.calls|
    ensures Steady(healthy, ReadStep(s, c))
  {
    var call := Extended(healthy, s.calls[c]);
    assert CallSteady(healthy, s.calls[c]);
    LastReadPicks(healthy, s.calls[c]);
    match Verdict(healthy, call)
    case Some(result) => ReturnSteady(healthy, s, c, Done(call, result));
    case None => ContinueSteady(healthy, s, c, call);
  }

  lemma {:induction false} RunSteady(healthy: seq<bool>, s: System, labels: seq<Label>)
    requires healthy != [] && Steady(healthy, s) && Run(s, labels).Some?
    requires NoFlips(labels)
    ensures Steady(healthy, Run(s, labels).value)
    decreases |labels|
  {
    if labels != [] {
      assert labels[0] in labels;
      if labels[0].Begin? {
        BeginSteady(healthy, s);
      } else {
        ReadSteady(healthy, s, labels[0].c);
      }
      RunSteady(healthy, Step(s, labels[0]).value, labels[1..]);
    }
  }

  /** How many finished calls returned upstream `j`. */
  function Returned(done: seq<Done>, j: nat): nat {
    if done == [] then 0 else (if done[0].result == Some(j) then 1 else 0) + Returned(done[1..], j)
  }

  /** How many of the listed tickets choose upstream `j`. */
  function HitsOf(healthy: seq<bool>, issues: seq<nat>, j: nat): nat {
    if issues == [] then 0 else Hit(healthy, issues[0] % WRAP, j) + HitsOf(healthy, issues[1..], j)
  }

  lemma {:induction false} HitsSplit(healthy: seq<bool>, a: seq<nat>, b: seq<nat>, j: nat)
    ensures HitsOf(healthy, a + b, j) == HitsOf(healthy, a, j) + HitsOf(healthy, b, j)
  {
    if a == [] {
      assert a + b == b;
    } else {
      assert (a + b)[1..] == a[1..] + b;
      HitsSplit(healthy, a[1..], b, j);
    }
  }

  /** The order of the tickets does not matter. */
  lemma {:induction false} HitsPermute(healthy: seq<bool>, a: seq<nat>, b: seq<nat>, j: nat)
    requires multiset(a) == multiset(b)
    ensures HitsOf(healthy, a, j) == HitsOf(healthy, b, j)
  {
    if a == [] {
      assert |multiset(b)| == 0;
    } else {
      assert a == [a[0]] + a[1..];
      assert a[0] in multiset(b);
      var i :| 0 <= i < |b| && b[i] == a[0];
      var rest := Remove(b, i);
      assert b == b[..i] + ([b[i]] + b[i + 1..]);
      RemoveBag(b, i);
      Cancel(multiset(rest), multiset(a[1..]), a[0]);
      HitsPermute(healthy, a[1..], rest, j);
      HitsSplit(healthy, b[..i], b[i + 1..], j);
      HitsSplit(healthy, b[..i], [b[i]] + b[i + 1..], j);
      HitsSplit(healthy, [b[i]], b[i + 1..], j);
      assert HitsOf(healthy, [b[i]], j) == Hit(healthy, b[i] % WRAP, j) by { assert [b[i]][1..] == []; }
    }
  }

  lemma {:induction false} ReturnedIsHits(healthy: seq<bool>, done: seq<Done>, j: nat)
    requires forall d :: d in done ==> d.result == Pick(healthy, Ticket(d.call))
    ensures Returned(done, j) == HitsOf(healthy, DoneIssues(done), j)
  {
    if done != [] {
      assert done[0] in done;
      assert DoneIssues(done)[1..] == DoneIssues(done[1..]);
      ReturnedIsHits(healthy, done[1..], j);
    }
  }

  lemma {:induction false} HitsBelow(healthy: seq<bool>, k: nat, j: nat)
    requires k <= WRAP
    ensures HitsOf(healthy, Below(k), j) == Count(healthy, 0, k, j)
  {
    if k > 0 {
      HitsBelow(healthy, k - 1, j);
      HitsBelowSnoc(healthy, k - 1, j);
      WrapBelow(k - 1);
    } else {
      assert Below(0) == [];
    }
  }

  /** How often upstream `j` was returned or is about to be: by the finished calls, and by
      the calls in progress, each of which holds the ticket that decides its result. */
  function Share(healthy: seq<bool>, s: System, j: nat): nat {
    Returned(s.done, j) + HitsOf(healthy, CallIssues(s.calls), j)
  }

  /** Concurrency, with no bound on the run: at every moment, finished calls and calls in
      progress together share out the tickets taken so far as so many calls made one after
      the other would. */
  lemma InterleavingSharesTickets(healthy: seq<bool>, labels: seq<Label>, j: nat)
    requires healthy != [] && Run(Start(healthy), labels).Some? && NoFlips(labels)
    ensures var s := Run(Start(healthy), labels).value;
      Share(healthy, s, j) == HitsOf(healthy, Below(s.issued), j)
  {
    StartTicketed(healthy);
    RunTicketed(Start(healthy), labels);
    RunSteady(healthy, Start(healthy), labels);
    var s := Run(Start(healthy), labels).value;
    ReturnedIsHits(healthy, s.done, j);
    HitsSplit(healthy, CallIssues(s.calls), DoneIssues(s.done), j);
    HitsPermute(healthy, Issues(s), Below(s.issued), j);
  }

  /** Before the counter wraps these are the counts of consecutive tickets. */
  lemma InterleavingKeepsCounts(healthy: seq<bool>, labels: seq<Label>, j: nat)
    requires healthy != [] && Run(Start(healthy), labels).Some? && NoFlips(labels)
    requires Run(Start(healthy), labels).value.issued <= WRAP
    ensures var s := Run(Start(healthy), labels).value;
      && Share(healthy, s, j) == Count(healthy, 0, s.issued, j)
      && (s.calls == [] ==> Returned(s.done, j) == Count(healthy, 0, s.issued, j))
  {
    InterleavingSharesTickets(healthy, labels, j);
    HitsBelow(healthy, Run(Start(healthy), labels).value.issued, j);
  }

  // ---------------------------------------------------------------------------------
  // Balance, before and after the wrap
  // ---------------------------------------------------------------------------------

  /** No two upstreams' shares differ by more than one. */
  ghost predicate Fair(healthy: seq<bool>, s: System) {
    forall i, j :: 0 <= i < |healthy| && 0 <= j < |healthy| ==> Share(healthy, s, i) <= Share(healthy, s, j) + 1
  }

  /** With all upstreams healthy, every state of every run before the wrap is balanced. */
  lemma InterleavingIsBalanced(healthy: seq<bool>, labels: seq<Label>)
    requires AllUp(healthy) && Run(Start(healthy), labels).Some? && NoFlips(labels)
    requires Run(Start(healthy), labels).value.issued <= WRAP
    ensures Fair(healthy, Run(Start(healthy), labels).value)
  {
    var s := Run(Start(healthy), labels).value;
    forall i, j | 0 <= i < |healthy| && 0 <= j < |healthy|
      ensures Share(healthy, s, i) <= Share(healthy, s, j) + 1
    {
      InterleavingKeepsCounts(healthy, labels, i);
      InterleavingKeepsCounts(healthy, labels, j);
      Balanced(healthy, 0, s.issued, i, j);
    }
  }

  /** When the number of upstreams divides the wrap, a ticket chooses what the unbounded
      counter would choose. */
  lemma WrappedPick(healthy: seq<bool>, k: nat)
    requires AllUp(healthy) && healthy != [] && WRAP % |healthy| == 0
    ensures Pick(healthy, k % WRAP) == Pick(healthy, k)
  {
    AllUpPick(healthy, k % WRAP);
    AllUpPick(healthy, k);
    ResidueIsMod(WRAP, |healthy|);
    ResidueIsMod(k, WRAP);
    ResidueTwice(k, WRAP, |healthy|);
  }

  lemma {:induction false} ResidueTwice(k: nat, w: nat, n: nat)
    requires n > 0 && w > 0 && Residue(w, n) == 0
    ensures Residue(Residue(k, w), n) == Residue(k, n)
  {
    if k >= w {
      ResidueTwice(k - w, w, n);
      ResidueAdd(w, k - w, n);
    }
  }

  lemma {:induction false} HitsBelowDividing(healthy: seq<bool>, k: nat, j: nat)
    requires AllUp(healthy) && healthy != [] && WRAP % |healthy| == 0
    ensures HitsOf(healthy, Below(k), j) == Count(healthy, 0, k, j)
  {
    if k > 0 {
      HitsBelowDividing(healthy, k - 1, j);
      WrappedPick(healthy, k - 1);
      HitsBelowSnoc(healthy, k - 1, j);
    } else {
      assert Below(0) == [];
    }
  }

  lemma HitsBelowSnoc(healthy: seq<bool>, k: nat, j: nat)
    ensures HitsOf(healthy, Below(k + 1), j) == HitsOf(healthy, Below(k), j) + Hit(healthy, k % WRAP, j)
    ensures Count(healthy, 0, k + 1, j) == Count(healthy, 0, k, j) + Hit(healthy, k, j)
  {
    assert Below(k + 1) == Below(k) + [k];
    HitsSplit(healthy, Below(k), [k], j);
    assert HitsOf(healthy, [k], j) == Hit(healthy, k % WRAP, j) by { assert [k][1..] == []; }
    CountSplit(healthy, 0, k, 1, j);
    assert Count(healthy, k, 1, j) == Hit(healthy, k, j);
  }

  lemma {:induction false} WholeRounds(healthy: seq<bool>, q: nat, j: nat)
    requires AllUp(healthy) && j < |healthy|
    ensures Count(healthy, 0, q * |healthy|, j) == q
  {
    if q > 0 {
      WholeRounds(healthy, q - 1, j);
      var n := |healthy|;
      assert q * n == (q - 1) * n + n;
      CountSplit(healthy, 0, (q - 1) * n, n, j);
      AllUpRound(healthy, (q - 1) * n, j);
    }
  }

  /** The first `r` upstreams of a round that is broken off have had their turn. */
  lemma {:induction false} BrokenRound(healthy: seq<bool>, q: nat, r: nat, j: nat)
    requires AllUp(healthy) && j < |healthy| && r < |healthy|
    ensures Count(healthy, 0, q * |healthy| + r, j) == q + if j < r then 1 else 0
  {
    var n := |healthy|;
    if r == 0 {
      WholeRounds(healthy, q, j);
    } else {
      BrokenRound(healthy, q, r - 1, j);
      var k := q * n + (r - 1);
      CountSplit(healthy, 0, k, 1, j);
      assert Count(healthy, k, 1, j) == Hit(healthy, k, j);
      AllUpPick(healthy, k);
      ResidueIsMod(k, n);
      DivModUnique(k, n, q, r - 1);
    }
  }

  /** Any number of calls may begin. */
  function Begins(k: nat): seq<Label> {
    if k == 0 then [] else [Begin] + Begins(k - 1)
  }

  lemma {:induction false} BeginsRun(s: System, k: nat)
    requires s.healthy != []
    ensures Run(s, Begins(k)).Some? && Run(s, Begins(k)).value.issued == s.issued + k
    ensures forall l :: l in Begins(k) ==> l == Begin
    decreases k
  {
    if k > 0 {
      var next := Step(s, Begin).value;
      BeginsRun(next, k - 1);
      assert Begins(k)[0] == Begin && Begins(k)[1..] == Begins(k - 1);
    }
  }

  /** One ticket past the wrap: what `q` whole rounds and `r` more tickets gave, and one more
      for the first upstream. */
  lemma ShareAfterWrap(healthy: seq<bool>, q: nat, r: nat, j: nat)
    requires AllUp(healthy) && j < |healthy| && r < |healthy| && WRAP == q * |healthy| + r
    ensures HitsOf(healthy, Below(WRAP + 1), j) == q + (if j < r then 1 else 0) + if j == 0 then 1 else 0
  {
    HitsBelow(healthy, WRAP, j);
    HitsBelowSnoc(healthy, WRAP, j);
    BrokenRound(healthy, q, r, j);
    WrapBelow(WRAP);
    AllUpPick(healthy, 0);
  }

  lemma WrapInRounds(n: nat) returns (q: nat, r: nat)
    requires n > 0
    ensures WRAP == q * n + r && r < n && r == WRAP % n
  {
    q, r := WRAP / n, WRAP % n;
  }

  /** One ticket past the wrap of a broken round, the first upstream is two ahead of the last. */
  lemma UnfairAfterWrap(healthy: seq<bool>)
    requires AllUp(healthy) && healthy != [] && WRAP % |healthy| != 0
    ensures var s := Run(Start(healthy), Begins(WRAP + 1)); s.Some? && !Fair(healthy, s.value)
  {
    var last: nat := |healthy| - 1;
    BeginsRun(Start(healthy), WRAP + 1);
    var s := Run(Start(healthy), Begins(WRAP + 1)).value;
    var q, r := WrapInRounds(|healthy|);
    ShareAfterWrap(healthy, q, r, 0);
    ShareAfterWrap(healthy, q, r, last);
    InterleavingSharesTickets(healthy, Begins(WRAP + 1), 0);
    InterleavingSharesTickets(healthy, Begins(WRAP + 1), last);
    assert last > 0;
    assert Share(healthy, s, 0) == q + 2 && Share(healthy, s, last) == q;
  }

  /** Balance for ever: with all upstreams healthy, every state of every run is balanced, for
      any number of calls, exactly when the number of upstreams divides 2 to the 64. */
  lemma BalancedForEver(healthy: seq<bool>)
    requires AllUp(healthy) && healthy != []
    ensures (forall labels :: Run(Start(healthy), labels).Some? && NoFlips(labels) ==>
               Fair(healthy, Run(Start(healthy), labels).value))
      <==> WRAP % |healthy| == 0
  {
    if WRAP % |healthy| == 0 {
      forall labels | Run(Start(healthy), labels).Some? && NoFlips(labels)
        ensures Fair(healthy, Run(Start(healthy), labels).value)
      {
        FairWhenDividing(healthy, labels);
      }
    } else {
      BeginsRun(Start(healthy), WRAP + 1);
      UnfairAfterWrap(healthy);
    }
  }

  lemma FairWhenDividing(healthy: seq<bool>, labels: seq<Label>)
    requires AllUp(healthy) && healthy != [] && WRAP % |healthy| == 0
    requires Run(Start(healthy), labels).Some? && NoFlips(labels)
    ensures Fair(healthy, Run(Start(healthy), labels).value)
  {
    var s := Run(Start(healthy), labels).value;
    forall i, j | 0 <= i < |healthy| && 0 <= j < |healthy|
      ensures Share(healthy, s, i) <= Share(healthy, s, j) + 1
    {
      InterleavingSharesTickets(healthy, labels, i);
      InterleavingSharesTickets(healthy, labels, j);
      HitsBelowDividing(healthy, s.issued, i);
      HitsBelowDividing(healthy, s.issued, j);
      Balanced(healthy, 0, s.issued, i, j);
    }
  }
}
