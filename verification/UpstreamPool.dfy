/** Upstream selection: a wrapping ticket counter, a modulus, and a scan that skips
    upstreams found unhealthy. */
module UpstreamPool {
  import opened Text

  /** `size_t` tickets wrap here. */
  const WRAP: nat := 0x1_0000_0000_0000_0000

  function NextTicket(ticket: nat): nat {
    (ticket + 1) % WRAP
  }

  /** `k % n`, by repeated subtraction. */
  function Residue(k: nat, n: nat): (r: nat)
    requires n > 0
    ensures r < n
  {
    if k < n then k else Residue(k - n, n)
  }

  /** The upstreams seen as an endless row of repetitions. */
  predicate Up(healthy: seq<bool>, k: nat)
    requires healthy != []
  {
    healthy[Residue(k, |healthy|)]
  }

  /** The first healthy upstream among `left` positions from `k` on. */
  function ScanFrom(healthy: seq<bool>, k: nat, left: nat): Option<nat>
    requires healthy != []
    decreases left
  {
    if left == 0 then None
    else if Up(healthy, k) then Some(Residue(k, |healthy|))
    else ScanFrom(healthy, k + 1, left - 1)
  }

  /** The upstream chosen for a ticket while the health flags do not change. */
  function Pick(healthy: seq<bool>, ticket: nat): Option<nat> {
    if healthy == [] then None else ScanFrom(healthy, Residue(ticket, |healthy|), |healthy|)
  }

  predicate AnyUp(healthy: seq<bool>) {
    exists j :: 0 <= j < |healthy| && healthy[j]
  }

  // ---------------------------------------------------------------------------------
  // Residues
  // ---------------------------------------------------------------------------------

  lemma {:induction false} ResidueNext(k: nat, n: nat)
    requires n > 0
    ensures Residue(k + 1, n) == if Residue(k, n) + 1 == n then 0 else Residue(k, n) + 1
  {
    if k >= n {
      ResidueNext(k - n, n);
    }
  }

  lemma {:induction false} ResidueAdd(k: nat, b: nat, n: nat)
    requires n > 0
    ensures Residue(Residue(k, n) + b, n) == Residue(k + b, n)
  {
    if k >= n {
      ResidueAdd(k - n, b, n);
      assert k + b - n == k - n + b;
    }
  }

  /** The remainder operator computes residues. */
  lemma {:induction false} ResidueIsMod(k: nat, n: nat)
    requires n > 0
    ensures k % n == Residue(k, n)
  {
    if k >= n {
      ResidueIsMod(k - n, n);
      ModPeriod(k - n, n);
    }
  }

  lemma ModPeriod(a: nat, n: nat)
    requires n > 0
    ensures (a + n) % n == a % n
  {
    var q, r := a / n, a % n;
    assert (q + 1) * n == q * n + n;
    DivModUnique(a + n, n, q + 1, r);
  }

  lemma DivModUnique(a: nat, n: nat, q: nat, r: nat)
    requires n > 0 && a == q * n + r && r < n
    ensures a % n == r
  {
    var q', r' := a / n, a % n;
    assert a == q' * n + r';
    if q' > q {
      MulStep(q, q', n);
    } else if q' < q {
      MulStep(q', q, n);
    }
  }

  lemma MulStep(a: nat, b: nat, n: nat)
    requires a < b
    ensures a * n + n <= b * n
  {
    assert b * n == (a + 1) * n + (b - a - 1) * n;
    assert (a + 1) * n == a * n + n;
  }

  // ---------------------------------------------------------------------------------
  // What a pick is
  // ---------------------------------------------------------------------------------

  /** Only the residue of the start matters. */
  lemma {:induction false} ScanResidue(healthy: seq<bool>, k: nat, m: nat, left: nat)
    requires healthy != [] && Residue(k, |healthy|) == Residue(m, |healthy|)
    ensures ScanFrom(healthy, k, left) == ScanFrom(healthy, m, left)
    decreases left
  {
    if left > 0 {
      ResidueNext(k, |healthy|);
      ResidueNext(m, |healthy|);
      ScanResidue(healthy, k + 1, m + 1, left - 1);
    }
  }

  /** A scan that meets its first healthy position at `m` returns it. */
  lemma {:induction false} ScanHits(healthy: seq<bool>, k: nat, m: nat, left: nat)
    requires healthy != [] && k <= m < k + left && Up(healthy, m)
    requires forall i :: k <= i < m ==> !Up(healthy, i)
    ensures ScanFrom(healthy, k, left) == Some(Residue(m, |healthy|))
    decreases left
  {
    if k < m {
      ScanHits(healthy, k + 1, m, left - 1);
    }
  }

  /** A scan returns nothing only if every position was unhealthy; otherwise its result is
      the first healthy position. */
  lemma {:induction false} ScanFinds(healthy: seq<bool>, k: nat, left: nat) returns (m: nat)
    requires healthy != []
    ensures ScanFrom(healthy, k, left).None? ==> forall i :: k <= i < k + left ==> !Up(healthy, i)
    ensures ScanFrom(healthy, k, left).Some? ==>
      && k <= m < k + left && Up(healthy, m) && (forall i :: k <= i < m ==> !Up(healthy, i))
      && ScanFrom(healthy, k, left) == Some(Residue(m, |healthy|))
    decreases left
  {
    m := k;
    if left > 0 && !Up(healthy, k) {
      m := ScanFinds(healthy, k + 1, left - 1);
    }
  }

  lemma PickIsScan(healthy: seq<bool>, ticket: nat)
    requires healthy != []
    ensures Pick(healthy, ticket) == ScanFrom(healthy, ticket, |healthy|)
  {
    ResidueAdd(ticket, 0, |healthy|);
    ScanResidue(healthy, Residue(ticket, |healthy|), ticket, |healthy|);
  }

  lemma PickPeriod(healthy: seq<bool>, ticket: nat)
    requires healthy != []
    ensures Pick(healthy, ticket + |healthy|) == Pick(healthy, ticket)
  {
  }

  /** Every residue occurs among any `n` consecutive positions. */
  lemma Covers(k: nat, n: nat, j: nat) returns (m: nat)
    requires j < n
    ensures k <= m < k + n && Residue(m, n) == j
  {
    var r := Residue(k, n);
    m := if j >= r then k + (j - r) else k + (j + n - r);
    ResidueAdd(k, m - k, n);
  }

  /** A healthy upstream is chosen whenever there is one, and only then. */
  lemma PickSound(healthy: seq<bool>, ticket: nat)
    ensures Pick(healthy, ticket).Some? <==> AnyUp(healthy)
    ensures Pick(healthy, ticket).Some? ==>
      Pick(healthy, ticket).value < |healthy| && healthy[Pick(healthy, ticket).value]
  {
    if healthy != [] {
      PickIsScan(healthy, ticket);
      var m := ScanFinds(healthy, ticket, |healthy|);
      if AnyUp(healthy) {
        var j :| 0 <= j < |healthy| && healthy[j];
        var k := Covers(ticket, |healthy|, j);
        assert Up(healthy, k);
      }
    }
  }

  // ---------------------------------------------------------------------------------
  // Exact distribution
  // ---------------------------------------------------------------------------------

  function Hit(healthy: seq<bool>, ticket: nat, j: nat): nat {
    if Pick(healthy, ticket) == Some(j) then 1 else 0
  }

  /** How many of `len` consecutive tickets choose upstream `j`. */
  function Count(healthy: seq<bool>, ticket: nat, len: nat, j: nat): nat
    decreases len
  {
    if len == 0 then 0 else Hit(healthy, ticket, j) + Count(healthy, ticket + 1, len - 1, j)
  }

  /** The length of the unhealthy run just below position `k`. */
  function RunBelow(healthy: seq<bool>, k: nat): nat
    requires healthy != []
  {
    if k == 0 || Up(healthy, k - 1) then 0 else 1 + RunBelow(healthy, k - 1)
  }

  lemma {:induction false} CountSplit(healthy: seq<bool>, ticket: nat, a: nat, b: nat, j: nat)
    ensures Count(healthy, ticket, a + b, j) == Count(healthy, ticket, a, j) + Count(healthy, ticket + a, b, j)
    decreases a
  {
    if a > 0 {
      CountSplit(healthy, ticket + 1, a - 1, b, j);
    }
  }

  /** A window of one full round counts the same wherever it starts. */
  lemma {:induction false} CountAnywhere(healthy: seq<bool>, ticket: nat, j: nat)
    requires healthy != []
    ensures Count(healthy, ticket, |healthy|, j) == Count(healthy, 0, |healthy|, j)
  {
    if ticket > 0 {
      var n := |healthy|;
      CountAnywhere(healthy, ticket - 1, j);
      CountSplit(healthy, ticket - 1, 1, n - 1, j);
      CountSplit(healthy, ticket, n - 1, 1, j);
      PickPeriod(healthy, ticket - 1);
      assert Count(healthy, ticket + (n - 1), 1, j) == Hit(healthy, ticket + (n - 1), j);
      assert Count(healthy, ticket - 1, 1, j) == Hit(healthy, ticket - 1, j);
    }
  }

  lemma {:induction false} CountAll(healthy: seq<bool>, ticket: nat, len: nat, j: nat)
    requires forall s :: ticket <= s < ticket + len ==> Pick(healthy, s) == Some(j)
    ensures Count(healthy, ticket, len, j) == len
    decreases len
  {
    if len > 0 {
      CountAll(healthy, ticket + 1, len - 1, j);
    }
  }

  lemma {:induction false} CountNone(healthy: seq<bool>, ticket: nat, len: nat, j: nat)
    requires forall s :: ticket <= s < ticket + len ==> Pick(healthy, s) != Some(j)
    ensures Count(healthy, ticket, len, j) == 0
    decreases len
  {
    if len > 0 {
      CountNone(healthy, ticket + 1, len - 1, j);
    }
  }

  /** The run below a position consists of unhealthy ones, and ends at a healthy one. */
  lemma {:induction false} RunShape(healthy: seq<bool>, k: nat)
    requires healthy != []
    ensures RunBelow(healthy, k) <= k
    ensures forall i :: k - RunBelow(healthy, k) <= i < k ==> !Up(healthy, i)
    ensures RunBelow(healthy, k) < k ==> Up(healthy, k - RunBelow(healthy, k) - 1)
  {
    if k > 0 && !Up(healthy, k - 1) {
      RunShape(healthy, k - 1);
    }
  }

  /** The tickets of the round that starts just after `j` and choose `j`: its last ones. */
  lemma LastOfRound(healthy: seq<bool>, j: nat, s: nat)
    requires j < |healthy| && healthy[j] && j < s <= j + |healthy|
    ensures var end := j + |healthy|;
      Pick(healthy, s) == Some(j) <==> end - RunBelow(healthy, end) <= s
  {
    var n := |healthy|;
    var end := j + n;
    var first := end - RunBelow(healthy, end);
    RunShape(healthy, end);
    PickIsScan(healthy, s);
    assert Up(healthy, end) && Up(healthy, j);
    if first <= s {
      ScanHits(healthy, s, end, n);
    } else {
      assert Up(healthy, first - 1);
      var m := ScanFinds(healthy, s, n);
      assert j < m < end;
      InnerResidue(j, m, n);
    }
  }

  lemma InnerResidue(j: nat, m: nat, n: nat)
    requires j < n && j < m < j + n
    ensures Residue(m, n) != j
  {
  }

  /** Exact distribution: over any `n` consecutive tickets and any fixed health flags, a
      healthy upstream is chosen once plus once for each unhealthy upstream in the run just
      before it, and an unhealthy one never. */
  lemma ExactDistribution(healthy: seq<bool>, ticket: nat, j: nat)
    requires j < |healthy|
    ensures Count(healthy, ticket, |healthy|, j)
         == if healthy[j] then 1 + RunBelow(healthy, j + |healthy|) else 0
  {
    var n := |healthy|;
    if healthy[j] {
      var r := RunBelow(healthy, j + n);
      RunShape(healthy, j + n);
      assert Up(healthy, j);
      CountAnywhere(healthy, ticket, j);
      CountAnywhere(healthy, j + 1, j);
      CountSplit(healthy, j + 1, n - 1 - r, r + 1, j);
      forall s | j < s <= j + n
        ensures Pick(healthy, s) == Some(j) <==> j + n - r <= s
      {
        LastOfRound(healthy, j, s);
      }
      CountNone(healthy, j + 1, n - 1 - r, j);
      CountAll(healthy, j + n - r, r + 1, j);
    } else {
      forall s | ticket <= s < ticket + n
        ensures Pick(healthy, s) != Some(j)
      {
        PickSound(healthy, s);
      }
      CountNone(healthy, ticket, n, j);
    }
  }

  /** The counts of the first `m` upstreams together. */
  function CountUpTo(healthy: seq<bool>, ticket: nat, len: nat, m: nat): nat {
    if m == 0 then 0 else CountUpTo(healthy, ticket, len, m - 1) + Count(healthy, ticket, len, m - 1)
  }

  lemma {:induction false} CountUpToSplit(healthy: seq<bool>, ticket: nat, len: nat, m: nat)
    requires len > 0
    ensures CountUpTo(healthy, ticket, len, m)
         == CountUpTo(healthy, ticket + 1, len - 1, m)
            + (if Pick(healthy, ticket).Some? && Pick(healthy, ticket).value < m then 1 else 0)
  {
    if m > 0 {
      CountUpToSplit(healthy, ticket, len, m - 1);
    }
  }

  /** Conservation: while some upstream is healthy, every ticket chooses exactly one. */
  lemma {:induction false} CountsSumUp(healthy: seq<bool>, ticket: nat, len: nat)
    requires AnyUp(healthy)
    ensures CountUpTo(healthy, ticket, len, |healthy|) == len
    decreases len
  {
    if len == 0 {
      NothingCounted(healthy, ticket, |healthy|);
    } else {
      PickSound(healthy, ticket);
      CountUpToSplit(healthy, ticket, len, |healthy|);
      CountsSumUp(healthy, ticket + 1, len - 1);
    }
  }

  lemma {:induction false} NothingCounted(healthy: seq<bool>, ticket: nat, m: nat)
    ensures CountUpTo(healthy, ticket, 0, m) == 0
  {
    if m > 0 {
      NothingCounted(healthy, ticket, m - 1);
    }
  }

  ghost predicate AllUp(healthy: seq<bool>) {
    forall j :: 0 <= j < |healthy| ==> healthy[j]
  }

  lemma AllUpRound(healthy: seq<bool>, ticket: nat, j: nat)
    requires AllUp(healthy) && j < |healthy|
    ensures Count(healthy, ticket, |healthy|, j) == 1
  {
    ExactDistribution(healthy, ticket, j);
    var n := |healthy|;
    assert Up(healthy, j + n - 1);
  }

  /** Balance: with all upstreams healthy, after any number of consecutive tickets no two
      upstreams have been chosen more than once apart. */
  lemma {:induction false} Balanced(healthy: seq<bool>, ticket: nat, len: nat, i: nat, j: nat)
    requires AllUp(healthy) && i < |healthy| && j < |healthy|
    ensures Count(healthy, ticket, len, i) <= Count(healthy, ticket, len, j) + 1
    decreases len
  {
    var n := |healthy|;
    AllUpRound(healthy, ticket, i);
    AllUpRound(healthy, ticket, j);
    if len < n {
      CountSplit(healthy, ticket, len, n - len, i);
    } else {
      CountSplit(healthy, ticket, n, len - n, i);
      CountSplit(healthy, ticket, n, len - n, j);
      Balanced(healthy, ticket + n, len - n, i, j);
    }
  }

  lemma AllUpPick(healthy: seq<bool>, ticket: nat)
    requires AllUp(healthy) && healthy != []
    ensures Pick(healthy, ticket) == Some(Residue(ticket, |healthy|))
  {
    PickIsScan(healthy, ticket);
    assert Up(healthy, ticket);
  }

  /** The wrap of the counter: with all upstreams healthy every ticket is followed by the
      next upstream in order, for all tickets, exactly when the number of upstreams divides
      2 to the 64. */
  lemma RoundRobinAcrossWrap(healthy: seq<bool>)
    requires AllUp(healthy) && healthy != []
    ensures (forall t: nat :: t < WRAP ==> InOrder(healthy, t, NextTicket(t))) <==> WRAP % |healthy| == 0
  {
    var n := |healthy|;
    var last: nat := WRAP - 1;
    forall t: nat | t < WRAP
      ensures InOrder(healthy, t, NextTicket(t)) <==> t < last || Residue(WRAP, n) == 0
    {
      AllUpPick(healthy, t);
      AllUpPick(healthy, NextTicket(t));
      ResidueNext(t, n);
      NextTicketCases(t);
    }
    ResidueIsMod(WRAP, n);
    assert InOrder(healthy, last, NextTicket(last)) <==> Residue(WRAP, n) == 0;
  }

  lemma NextTicketCases(t: nat)
    requires t < WRAP
    ensures NextTicket(t) == if t + 1 == WRAP then 0 else t + 1
  {
  }

  /** Ticket `u` chooses the upstream after the one that ticket `t` chooses. */
  predicate InOrder(healthy: seq<bool>, t: nat, u: nat)
    requires healthy != []
  {
    && Pick(healthy, t).Some?
    && Pick(healthy, u) == Some(if Pick(healthy, t).value + 1 == |healthy| then 0 else Pick(healthy, t).value + 1)
  }

  /** Three upstreams: the tickets just before and just after the wrap choose the same one. */
  lemma WrapRepeatsWithThree()
    ensures Pick([true, true, true], WRAP - 1) == Pick([true, true, true], NextTicket(WRAP - 1))
  {
    var healthy := [true, true, true];
    AllUpPick(healthy, WRAP - 1);
    AllUpPick(healthy, 0);
    ResidueIsMod(WRAP - 1, 3);
    assert (WRAP - 1) % 3 == 0;
  }

  // ---------------------------------------------------------------------------------
  // Flags that change during a scan
  // ---------------------------------------------------------------------------------

  /** The scan from position `k` when the flags are `views[i]` at its load number `i`. */
  function ScanViews(k: nat, views: seq<seq<bool>>): Option<nat>
    requires forall i :: 0 <= i < |views| ==> views[i] != []
    decreases |views|
  {
    if views == [] then None
    else if Up(views[0], k) then Some(Residue(k, |views[0]|))
    else ScanViews(k + 1, views[1..])
  }

  /** One view of all flags for each load of a scan over `n` upstreams. */
  ghost predicate Views(n: nat, views: seq<seq<bool>>) {
    |views| == n && forall i :: 0 <= i < |views| ==> |views[i]| == n
  }

  /** Flags that stand still: the scan is the pick. */
  lemma StandingViews(healthy: seq<bool>, ticket: nat, views: seq<seq<bool>>)
    requires healthy != [] && Views(|healthy|, views) && forall i :: 0 <= i < |views| ==> views[i] == healthy
    ensures ScanViews(Residue(ticket, |healthy|), views) == Pick(healthy, ticket)
  {
    StandingScan(healthy, Residue(ticket, |healthy|), views);
  }

  lemma {:induction false} StandingScan(healthy: seq<bool>, k: nat, views: seq<seq<bool>>)
    requires healthy != [] && forall i :: 0 <= i < |views| ==> views[i] == healthy
    ensures ScanViews(k, views) == ScanFrom(healthy, k, |views|)
    decreases |views|
  {
    if views != [] {
      StandingScan(healthy, k + 1, views[1..]);
    }
  }

  /** Whatever the flags do, a scan returns an upstream that was up at its own load, after
      finding each one before it down, and nothing only after finding every one down. */
  lemma {:induction false} ViewsJustify(n: nat, k: nat, views: seq<seq<bool>>) returns (m: nat)
    requires n > 0 && forall i :: 0 <= i < |views| ==> |views[i]| == n
    ensures m <= |views| && forall i :: 0 <= i < m ==> !Up(views[i], k + i)
    ensures match ScanViews(k, views)
      case Some(u) => m < |views| && Up(views[m], k + m) && u == Residue(k + m, n)
      case None => m == |views|
    decreases |views|
  {
    m := 0;
    if views != [] && !Up(views[0], k) {
      var rest := ViewsJustify(n, k + 1, views[1..]);
      m := rest + 1;
      forall i | 0 <= i < m
        ensures !Up(views[i], k + i)
      {
        if i > 0 {
          assert views[1..][i - 1] == views[i] && k + 1 + (i - 1) == k + i;
        }
      }
    }
  }

  // ---------------------------------------------------------------------------------
  // The pool object
  // ---------------------------------------------------------------------------------

  class Upstreams {
    var healthy: seq<bool>
    var nextIndex: nat

    ghost predicate Valid()
      reads this
    {
      nextIndex < WRAP
    }

    /** The constructor's loop: one healthy upstream for each target. */
    constructor (targets: nat)
      ensures Valid() && nextIndex == 0 && |healthy| == targets && AllUp(healthy)
    {
      var flags: seq<bool> := [];
      for i := 0 to targets
        invariant |flags| == i && AllUp(flags)
      {
        flags := flags + [true];
      }
      healthy := flags;
      nextIndex := 0;
    }

    /** `pickNext`, while the health checker changes the flags: they are `views[i]` when the
        scan makes its load number `i`. An empty pool takes no ticket. */
    method PickNext(views: seq<seq<bool>>) returns (r: Option<nat>)
      requires Valid() && Views(|healthy|, views)
      modifies this
      ensures Valid() && (healthy == old(healthy) || healthy in views)
      ensures nextIndex == if views == [] then old(nextIndex) else NextTicket(old(nextIndex))
      ensures r == if views == [] then None else ScanViews(Residue(old(nextIndex), |views|), views)
    {
      var count := |healthy|;
      if count == 0 {
        return None;
      }
      var ticket := nextIndex;
      nextIndex := NextTicket(nextIndex);
      var start := ticket % count;
      ResidueIsMod(ticket, count);
      for i := 0 to count
        invariant nextIndex == NextTicket(ticket) && (healthy == old(healthy) || healthy in views)
        invariant ScanViews(start, views) == ScanViews(start + i, views[i..])
      {
        assert views[i] in views && views[i..][0] == views[i] && views[i..][1..] == views[i + 1..];
        healthy := views[i];
        var candidate := (start + i) % count;
        ResidueIsMod(start + i, count);
        if healthy[candidate] {
          return Some(candidate);
        }
      }
      return None;
    }
  }
}
