/** The write side of a connection: queued bytes, a cursor, and non-blocking sends. */
module WriteBuffers {

  /** `writeBuffer_` and `writeOffset_`. */
  datatype Outbox = Outbox(buffer: string, offset: nat)

  const EMPTY: Outbox := Outbox("", 0)

  /** What one call of `send` may answer. `Sent(0)` is treated by the code like an error. */
  datatype Send = Sent(n: nat) | WouldBlock | Broken

  predicate Valid(o: Outbox) {
    o.offset <= |o.buffer|
  }

  predicate HasPending(o: Outbox) {
    o.offset < |o.buffer|
  }

  function Pending(o: Outbox): string
    requires Valid(o)
  {
    o.buffer[o.offset..]
  }

  function Queue(o: Outbox, data: string): Outbox {
    o.(buffer := o.buffer + data)
  }

  /** `done` is the result of `flushWrite`; `sent` and `dropped` are what became of the bytes
      that left the buffer. */
  datatype Flushed = Flushed(box: Outbox, done: bool, sent: string, dropped: string)

  predicate Fails(s: Send) {
    s == Broken || s == Sent(0)
  }

  function Min(a: nat, b: nat): nat {
    if a < b then a else b
  }

  /** `flushWrite` against the answers of the socket, in order. A socket that answers no more
      would block; a positive answer never exceeds what was offered. */
  function Flush(o: Outbox, sends: seq<Send>): (f: Flushed)
    requires Valid(o)
    ensures Valid(f.box)
    decreases |sends|
  {
    if !HasPending(o) then
      Flushed(if o.buffer == "" then o else EMPTY, true, "", "")
    else if sends == [] || sends[0] == WouldBlock then
      Flushed(o, false, "", "")
    else if Fails(sends[0]) then
      Flushed(o.(offset := |o.buffer|), true, "", Pending(o))
    else
      var n := Min(sends[0].n, |o.buffer| - o.offset);
      var rest := Flush(o.(offset := o.offset + n), sends[1..]);
      rest.(sent := o.buffer[o.offset..o.offset + n] + rest.sent)
  }

  /** How many bytes the socket takes before it would block or fails. */
  function Taken(sends: seq<Send>): nat {
    if sends == [] || !sends[0].Sent? || sends[0].n == 0 then 0 else sends[0].n + Taken(sends[1..])
  }

  /** What stops the sending: the first answer that takes nothing, if there is one. */
  function StoppedBy(sends: seq<Send>): Send {
    if sends == [] then WouldBlock
    else if sends[0].Sent? && sends[0].n > 0 then StoppedBy(sends[1..])
    else sends[0]
  }

  /** The socket got as much of `pending` as it takes. If that is all, the call is done. If
      not, a socket that would block leaves the rest pending and the call not done; any other
      answer that takes nothing drops all the rest, and the call is done. */
  ghost predicate FlushedRight(f: Flushed, pending: string, taken: nat, stop: Send)
    requires Valid(f.box)
  {
    if |pending| <= taken then
      f.done && f.sent == pending && f.dropped == "" && Pending(f.box) == ""
    else
      && f.sent == pending[..taken]
      && (stop == WouldBlock ==> !f.done && f.dropped == "" && Pending(f.box) == pending[taken..])
      && (stop != WouldBlock ==> f.done && f.dropped == pending[taken..] && Pending(f.box) == "")
  }

  /** One more positive answer of the socket in front. */
  lemma SentMore(f: Flushed, head: string, rest: string, n: nat, taken: nat, stop: Send)
    requires Valid(f.box) && FlushedRight(f, rest, taken, stop) && |head| <= n && (|head| < n ==> rest == "")
    ensures FlushedRight(f.(sent := head + f.sent), head + rest, n + taken, stop)
  {
    var pending := head + rest;
    if |pending| > n + taken {
      assert pending[..n + taken] == head + rest[..taken] && pending[n + taken..] == rest[taken..];
    }
  }

  /** Nothing is pending, or the first answer takes nothing. */
  lemma FlushStops(o: Outbox, sends: seq<Send>)
    requires Valid(o) && (!HasPending(o) || Taken(sends) == 0)
    ensures FlushedRight(Flush(o, sends), Pending(o), Taken(sends), StoppedBy(sends))
  {
    assert Pending(o)[0..] == Pending(o);
  }

  lemma FlushGoesOn(o: Outbox, sends: seq<Send>) returns (head: string, o': Outbox)
    requires Valid(o) && HasPending(o) && Taken(sends) > 0
    ensures Valid(o') && Pending(o) == head + Pending(o')
    ensures |head| <= sends[0].n && (|head| < sends[0].n ==> Pending(o') == "")
    ensures var f := Flush(o', sends[1..]); Flush(o, sends) == f.(sent := head + f.sent)
  {
    var n := Min(sends[0].n, |o.buffer| - o.offset);
    head, o' := o.buffer[o.offset..o.offset + n], o.(offset := o.offset + n);
  }

  /** A flush, exactly. */
  lemma {:induction false} FlushExactly(o: Outbox, sends: seq<Send>)
    requires Valid(o)
    ensures FlushedRight(Flush(o, sends), Pending(o), Taken(sends), StoppedBy(sends))
    decreases |sends|
  {
    if !HasPending(o) || Taken(sends) == 0 {
      FlushStops(o, sends);
    } else {
      var head, o' := FlushGoesOn(o, sends);
      FlushExactly(o', sends[1..]);
      SentMore(Flush(o', sends[1..]), head, Pending(o'), sends[0].n, Taken(sends[1..]), StoppedBy(sends[1..]));
    }
  }

  /** Every pending byte is sent, dropped or still pending, in this order. */
  lemma FlushAccountsForAll(o: Outbox, sends: seq<Send>)
    requires Valid(o)
    ensures var f := Flush(o, sends); Pending(o) == f.sent + f.dropped + Pending(f.box)
  {
    FlushExactly(o, sends);
    var pending, n := Pending(o), Taken(sends);
    if n < |pending| {
      assert pending == pending[..n] + pending[n..];
    }
  }

  ghost predicate SomeFails(sends: seq<Send>) {
    exists i :: 0 <= i < |sends| && Fails(sends[i])
  }

  lemma {:induction false} StoppedByFailure(sends: seq<Send>)
    requires StoppedBy(sends) != WouldBlock
    ensures SomeFails(sends)
  {
    if sends[0].Sent? && sends[0].n > 0 {
      StoppedByFailure(sends[1..]);
      var i :| 0 <= i < |sends[1..]| && Fails(sends[1..][i]);
      assert Fails(sends[i + 1]);
    } else {
      assert Fails(sends[0]);
    }
  }

  /** The call reports done exactly when nothing is pending; bytes are dropped only when a
      send failed, and then the call is done. */
  lemma FlushReportsDone(o: Outbox, sends: seq<Send>)
    requires Valid(o)
    ensures var f := Flush(o, sends);
      (f.done <==> !HasPending(f.box)) && (f.dropped != "" ==> f.done && SomeFails(sends))
  {
    FlushExactly(o, sends);
    var f := Flush(o, sends);
    assert HasPending(f.box) <==> Pending(f.box) != "";
    if StoppedBy(sends) != WouldBlock {
      StoppedByFailure(sends);
    } else if Taken(sends) < |Pending(o)| {
      assert |Pending(f.box)| == |Pending(o)| - Taken(sends);
    }
  }

  // ---------------------------------------------------------------------------------
  // Whole lifetimes
  // ---------------------------------------------------------------------------------

  datatype Op = QueueWrite(data: string) | FlushWrite(sends: seq<Send>)

  /** What became of a piece of the stream. */
  datatype Piece = Delivered(text: string) | Dropped(text: string)

  datatype Ledger = Ledger(box: Outbox, pieces: seq<Piece>)

  function Apply(l: Ledger, op: Op): (r: Ledger)
    requires Valid(l.box)
    ensures Valid(r.box)
  {
    match op
    case QueueWrite(data) => l.(box := Queue(l.box, data))
    case FlushWrite(sends) =>
      var f := Flush(l.box, sends);
      Ledger(f.box, l.pieces + [Delivered(f.sent), Dropped(f.dropped)])
  }

  function ApplyAll(l: Ledger, ops: seq<Op>): (r: Ledger)
    requires Valid(l.box)
    ensures Valid(r.box)
    decreases |ops|
  {
    if ops == [] then l else ApplyAll(Apply(l, ops[0]), ops[1..])
  }

  function Queued(ops: seq<Op>): string {
    if ops == [] then ""
    else (if ops[0].QueueWrite? then ops[0].data else "") + Queued(ops[1..])
  }

  /** All pieces in the order in which they left the buffer. */
  function Gone(pieces: seq<Piece>): string {
    if pieces == [] then "" else pieces[0].text + Gone(pieces[1..])
  }

  /** What the peer received. */
  function Received(pieces: seq<Piece>): string {
    if pieces == [] then ""
    else (if pieces[0].Delivered? then pieces[0].text else "") + Received(pieces[1..])
  }

  ghost predicate NeverFails(ops: seq<Op>) {
    forall i, j :: 0 <= i < |ops| && ops[i].FlushWrite? && 0 <= j < |ops[i].sends| ==> !Fails(ops[i].sends[j])
  }

  lemma {:induction false} GoneSplit(a: seq<Piece>, b: seq<Piece>)
    ensures Gone(a + b) == Gone(a) + Gone(b)
  {
    if a == [] {
      assert a + b == b;
    } else {
      assert (a + b)[1..] == a[1..] + b;
      GoneSplit(a[1..], b);
      var head, tail, rest := a[0].text, Gone(a[1..]), Gone(b);
      assert head + (tail + rest) == head + tail + rest;
    }
  }

  lemma {:induction false} ReceivedSplit(a: seq<Piece>, b: seq<Piece>)
    ensures Received(a + b) == Received(a) + Received(b)
  {
    if a == [] {
      assert a + b == b;
    } else {
      assert (a + b)[1..] == a[1..] + b;
      ReceivedSplit(a[1..], b);
      var head := if a[0].Delivered? then a[0].text else "";
      var tail, rest := Received(a[1..]), Received(b);
      assert head + (tail + rest) == head + tail + rest;
    }
  }

  lemma PairGone(sent: string, dropped: string)
    ensures Gone([Delivered(sent), Dropped(dropped)]) == sent + dropped
    ensures Received([Delivered(sent), Dropped(dropped)]) == sent
  {
    var two, one := [Delivered(sent), Dropped(dropped)], [Dropped(dropped)];
    assert two[1..] == one && one[1..] == [];
    assert Gone(one) == dropped + "" && Received(one) == "";
  }

  lemma FlushAccount(l: Ledger, sends: seq<Send>)
    requires Valid(l.box)
    ensures var f := Flush(l.box, sends);
      Gone(l.pieces + [Delivered(f.sent), Dropped(f.dropped)]) + Pending(f.box) == Gone(l.pieces) + Pending(l.box)
  {
    FlushAccountsForAll(l.box, sends);
    var f := Flush(l.box, sends);
    GoneSplit(l.pieces, [Delivered(f.sent), Dropped(f.dropped)]);
    PairGone(f.sent, f.dropped);
    var gone, both, left := Gone(l.pieces), f.sent + f.dropped, Pending(f.box);
    assert gone + both + left == gone + (both + left);
  }

  /** One operation keeps the account. */
  lemma ApplyConserves(l: Ledger, op: Op)
    requires Valid(l.box)
    ensures var r := Apply(l, op);
      Gone(r.pieces) + Pending(r.box)
        == Gone(l.pieces) + Pending(l.box) + (if op.QueueWrite? then op.data else "")
  {
    match op
    case QueueWrite(data) =>
      assert Pending(Queue(l.box, data)) == Pending(l.box) + data;
    case FlushWrite(sends) =>
      FlushAccount(l, sends);
  }

  lemma {:induction false} LedgerConserves(l: Ledger, ops: seq<Op>)
    requires Valid(l.box)
    ensures var r := ApplyAll(l, ops);
      Gone(r.pieces) + Pending(r.box) == Gone(l.pieces) + Pending(l.box) + Queued(ops)
    decreases |ops|
  {
    if ops != [] {
      ApplyConserves(l, ops[0]);
      LedgerConserves(Apply(l, ops[0]), ops[1..]);
    }
  }

  lemma {:induction false} NothingDropped(l: Ledger, ops: seq<Op>)
    requires Valid(l.box) && NeverFails(ops) && Gone(l.pieces) == Received(l.pieces)
    ensures var r := ApplyAll(l, ops); Gone(r.pieces) == Received(r.pieces)
    decreases |ops|
  {
    if ops != [] {
      if ops[0].FlushWrite? {
        FlushReportsDone(l.box, ops[0].sends);
        var f := Flush(l.box, ops[0].sends);
        var two := [Delivered(f.sent), Dropped(f.dropped)];
        PairGone(f.sent, f.dropped);
        GoneSplit(l.pieces, two);
        ReceivedSplit(l.pieces, two);
      }
      NothingDropped(Apply(l, ops[0]), ops[1..]);
    }
  }

  /** Write-stream conservation: over any sequence of queued responses and flushes, with any
      partial sends, would-blocks and errors, what left the buffer followed by what is still
      pending is exactly what was queued; while no send fails the peer has received a prefix
      of it. */
  lemma WriteStreamConservation(ops: seq<Op>)
    ensures var r := ApplyAll(Ledger(EMPTY, []), ops);
      && Gone(r.pieces) + Pending(r.box) == Queued(ops)
      && (NeverFails(ops) ==> Received(r.pieces) + Pending(r.box) == Queued(ops))
  {
    LedgerConserves(Ledger(EMPTY, []), ops);
    if NeverFails(ops) {
      NothingDropped(Ledger(EMPTY, []), ops);
    }
  }
}
