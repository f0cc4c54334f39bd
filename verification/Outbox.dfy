/** Messages typed while the agent is busy, handed out one per turn (`ember/app/src/model.rs`). */
module Outboxes {
  import opened Wrappers

  datatype Box = Box(queues: map<string, seq<string>>, inFlight: map<string, int>, errors: map<string, string>)

  const EMPTY_BOX := Box(map[], map[], map[])

  function Queued(b: Box, id: string): seq<string> {
    if id in b.queues then b.queues[id] else []
  }

  function WithQueue(b: Box, id: string, queue: seq<string>): Box {
    if queue == [] then b.(queues := b.queues - {id}) else b.(queues := b.queues[id := queue])
  }

  function Pushed(b: Box, id: string, text: string): Box {
    WithQueue(b, id, Queued(b, id) + [text]).(errors := b.errors - {id})
  }

  function ClearedOf(b: Box, id: string): Box {
    WithQueue(b, id, [])
  }

  function FailedBack(b: Box, id: string, text: string, error: string): Box {
    WithQueue(b, id, [text] + Queued(b, id)).(inFlight := b.inFlight - {id}, errors := b.errors[id := error])
  }

  /** The message to send now, if any, given the session's status. */
  function NextOf(b: Box, id: string, busy: bool, lastSeq: int): (Box, Option<string>) {
    if busy then (b.(inFlight := b.inFlight - {id}), None)
    else if id in b.inFlight && lastSeq <= b.inFlight[id] then (b, None)
    else
      var queue := Queued(b, id);
      if queue == [] then (b.(inFlight := b.inFlight - {id}), None)
      else (WithQueue(b, id, queue[1..]).(inFlight := b.inFlight[id := lastSeq]), Some(queue[0]))
  }

  // ---- runs ----------------------------------------------------------------------------------

  datatype Op =
    | Push(id: string, text: string)
    | Next(id: string, busy: bool, lastSeq: int)
    | Fail(id: string, text: string, error: string)
    | Clear(id: string)

  function Done(b: Box, op: Op): Box {
    match op
    case Push(id, text) => Pushed(b, id, text)
    case Next(id, busy, lastSeq) => NextOf(b, id, busy, lastSeq).0
    case Fail(id, text, error) => FailedBack(b, id, text, error)
    case Clear(id) => ClearedOf(b, id)
  }

  /** The outbox before the `n`-th operation of a run. */
  function At(ops: seq<Op>, n: nat): Box
    requires n <= |ops|
  {
    if n == 0 then EMPTY_BOX else Done(At(ops, n - 1), ops[n - 1])
  }

  /** What the `n`-th operation hands out for `id`. */
  function Released(ops: seq<Op>, n: nat, id: string): Option<string>
    requires n < |ops|
  {
    if ops[n].Next? && ops[n].id == id then NextOf(At(ops, n), id, ops[n].busy, ops[n].lastSeq).1 else None
  }

  /** How many times `text` waits in a queue. */
  function Copies(queue: seq<string>, text: string): nat {
    multiset(queue)[text]
  }

  function One(b: bool): nat {
    if b then 1 else 0
  }

  /** Of one text of one session: how many were put in, handed out, given back and cleared. */
  datatype Ledger = Ledger(pushed: nat, out: nat, back: nat, cleared: nat)

  /** One operation's entry in it. */
  function Entry(b: Box, op: Op, id: string, text: string): Ledger {
    if op.id != id then Ledger(0, 0, 0, 0)
    else
      match op
      case Push(_, t) => Ledger(One(t == text), 0, 0, 0)
      case Next(_, busy, lastSeq) => Ledger(0, One(NextOf(b, id, busy, lastSeq).1 == Some(text)), 0, 0)
      case Fail(_, t, _) => Ledger(0, 0, One(t == text), 0)
      case Clear(_) => Ledger(0, 0, 0, Copies(Queued(b, id), text))
  }

  function Plus(l: Ledger, e: Ledger): Ledger {
    Ledger(l.pushed + e.pushed, l.out + e.out, l.back + e.back, l.cleared + e.cleared)
  }

  /** The ledger of the first `n` operations. */
  function Count(ops: seq<Op>, id: string, text: string, n: nat): Ledger
    requires n <= |ops|
  {
    if n == 0 then Ledger(0, 0, 0, 0)
    else Plus(Count(ops, id, text, n - 1), Entry(At(ops, n - 1), ops[n - 1], id, text))
  }

  /** An operation on one session leaves the queues of the others. */
  lemma OthersKept(b: Box, op: Op, id: string)
    requires op.id != id
    ensures Queued(Done(b, op), id) == Queued(b, id)
    ensures id in Done(b, op).inFlight <==> id in b.inFlight
    ensures id in b.inFlight ==> Done(b, op).inFlight[id] == b.inFlight[id]
  {
  }

  lemma QueueIs(b: Box, id: string, queue: seq<string>)
    ensures Queued(WithQueue(b, id, queue), id) == queue
  {
  }

  lemma CopiesOf(queue: seq<string>, t: string, text: string)
    ensures Copies([t] + queue, text) == One(t == text) + Copies(queue, text)
    ensures Copies(queue + [t], text) == One(t == text) + Copies(queue, text)
  {
  }

  lemma NextBalances(b: Box, id: string, busy: bool, lastSeq: int, text: string)
    ensures var r := NextOf(b, id, busy, lastSeq);
            Copies(Queued(b, id), text) == Copies(Queued(r.0, id), text) + One(r.1 == Some(text))
  {
    var queue := Queued(b, id);
    if NextOf(b, id, busy, lastSeq).1.Some? {
      QueueIs(b, id, queue[1..]);
      CopiesOf(queue[1..], queue[0], text);
      assert queue == [queue[0]] + queue[1..];
    }
  }

  lemma PutBalances(b: Box, id: string, t: string, error: string, text: string)
    ensures Copies(Queued(Pushed(b, id, t), id), text) == Copies(Queued(b, id), text) + One(t == text)
    ensures Copies(Queued(FailedBack(b, id, t, error), id), text) == Copies(Queued(b, id), text) + One(t == text)
    ensures Queued(ClearedOf(b, id), id) == []
  {
    CopiesOf(Queued(b, id), t, text);
  }

  lemma EntryBalances(b: Box, op: Op, id: string, text: string)
    ensures var e := Entry(b, op, id, text);
            Copies(Queued(b, id), text) + e.pushed + e.back == Copies(Queued(Done(b, op), id), text) + e.out + e.cleared
  {
    if op.id != id {
      OthersKept(b, op, id);
    } else {
      match op {
        case Push(_, t) => PutBalances(b, id, t, "", text);
        case Next(_, busy, lastSeq) => NextBalances(b, id, busy, lastSeq, text);
        case Fail(_, t, error) => PutBalances(b, id, t, error, text);
        case Clear(_) => PutBalances(b, id, "", "", text);
      }
    }
  }

  /** Over every run, no message is lost or doubled: of every text of every session, what was put in
      or given back is waiting, was handed out, or was cleared. */
  lemma {:induction false} NothingLost(ops: seq<Op>, id: string, text: string, n: nat)
    requires n <= |ops|
    ensures var l := Count(ops, id, text, n);
            l.pushed + l.back == Copies(Queued(At(ops, n), id), text) + l.out + l.cleared
  {
    if n == 0 {
    } else {
      NothingLost(ops, id, text, n - 1);
      EntryBalances(At(ops, n - 1), ops[n - 1], id, text);
    }
  }

  // ---- one per turn --------------------------------------------------------------------------

  /** May this operation free the session for another message, after one handed out at `at`? */
  predicate Frees(op: Op, id: string, at: int) {
    op.id == id && ((op.Next? && (op.busy || op.lastSeq > at)) || op.Fail?)
  }

  /** Until something frees it, a session holds the sequence number its message went out at. */
  lemma {:induction false} HeldAt(ops: seq<Op>, id: string, i: nat, j: nat)
    requires i < j <= |ops| && Released(ops, i, id).Some?
    requires forall m :: i < m < j ==> !Frees(ops[m], id, ops[i].lastSeq)
    ensures id in At(ops, j).inFlight && At(ops, j).inFlight[id] == ops[i].lastSeq
  {
    if j > i + 1 {
      HeldAt(ops, id, i, j - 1);
      if ops[j - 1].id != id {
        OthersKept(At(ops, j - 1), ops[j - 1], id);
      }
    }
  }

  /** Between two messages handed out for a session, it was seen busy, or a failure was reported,
      or its sequence number passed where it was (at the latest when the second went out). */
  lemma OnePerTurn(ops: seq<Op>, id: string, i: nat, j: nat)
    requires i < j < |ops| && Released(ops, i, id).Some? && Released(ops, j, id).Some?
    ensures exists m :: i < m <= j && Frees(ops[m], id, ops[i].lastSeq)
  {
    if forall m :: i < m < j ==> !Frees(ops[m], id, ops[i].lastSeq) {
      HeldAt(ops, id, i, j);
      assert Frees(ops[j], id, ops[i].lastSeq);
    }
  }

  /** Once cleared, a session is handed nothing until something is put in or given back. */
  lemma {:induction false} NothingAfterClear(ops: seq<Op>, id: string, n: nat, m: nat)
    requires n < m <= |ops| && ops[n] == Clear(id)
    requires forall k :: n < k < m && ops[k].id == id ==> !ops[k].Push? && !ops[k].Fail?
    ensures Queued(At(ops, m), id) == []
    ensures m < |ops| ==> Released(ops, m, id).None?
  {
    if m == n + 1 {
    } else {
      NothingAfterClear(ops, id, n, m - 1);
      if ops[m - 1].id != id {
        OthersKept(At(ops, m - 1), ops[m - 1], id);
      }
    }
  }

  // ---- exactly when ---------------------------------------------------------------------------

  /** Where the session's events ended when its last message went out, unless it was seen busy since, or a failure was
      reported, or its events went on. */
  function OutSince(ops: seq<Op>, n: nat, id: string): Option<int>
    requires n <= |ops|
  {
    if n == 0 then None
    else
      var before := OutSince(ops, n - 1, id);
      match ops[n - 1]
      case Next(i, busy, lastSeq) =>
        if i != id then before
        else if Released(ops, n - 1, id).Some? then Some(lastSeq)
        else if busy || (before.Some? && lastSeq > before.value) then None
        else before
      case Fail(i, _, _) => if i == id then None else before
      case _ => before
  }

  /** The error of the last failure, until another message is put in. */
  function LastError(ops: seq<Op>, n: nat, id: string): Option<string>
    requires n <= |ops|
  {
    if n == 0 then None
    else
      match ops[n - 1]
      case Fail(i, _, error) => if i == id then Some(error) else LastError(ops, n - 1, id)
      case Push(i, _) => if i == id then None else LastError(ops, n - 1, id)
      case _ => LastError(ops, n - 1, id)
  }

  predicate Holds<V(==)>(m: map<string, V>, id: string, v: Option<V>) {
    if v.Some? then id in m && m[id] == v.value else id !in m
  }

  lemma {:induction false} OutAndErrorKnown(ops: seq<Op>, n: nat, id: string)
    requires n <= |ops|
    ensures Holds(At(ops, n).inFlight, id, OutSince(ops, n, id))
    ensures Holds(At(ops, n).errors, id, LastError(ops, n, id))
  {
    if n == 0 {
    } else {
      OutAndErrorKnown(ops, n - 1, id);
      KnownStep(At(ops, n - 1), ops[n - 1], id);
    }
  }

  /** What one operation does to the message in flight and the error of a session. */
  lemma KnownStep(b: Box, op: Op, id: string)
    ensures var r := Done(b, op);
            && (op.id != id ==>
                  (id in r.inFlight <==> id in b.inFlight) && (id in b.inFlight ==> r.inFlight[id] == b.inFlight[id])
                  && (id in r.errors <==> id in b.errors) && (id in b.errors ==> r.errors[id] == b.errors[id]))
            && (op.Fail? && op.id == id ==> id !in r.inFlight && id in r.errors && r.errors[id] == op.error)
            && (op.Push? && op.id == id ==> r.inFlight == b.inFlight && id !in r.errors)
            && (op.Clear? ==> r.inFlight == b.inFlight && r.errors == b.errors)
            && (op.Next? ==> r.errors == b.errors)
  {
  }

  /** Over every run, a message goes out exactly when the session is not busy, something waits, and nothing is out
      since; and it is the one that waited longest. Its error is that of its last failure, until another is put in. */
  lemma ReleasedExactly(ops: seq<Op>, n: nat, id: string, busy: bool, lastSeq: int)
    requires n < |ops| && ops[n] == Next(id, busy, lastSeq)
    ensures var queue, out := Queued(At(ops, n), id), OutSince(ops, n, id);
            Released(ops, n, id)
              == if !busy && queue != [] && (out.None? || lastSeq > out.value) then Some(queue[0]) else None
    ensures Holds(At(ops, n).errors, id, LastError(ops, n, id))
  {
    OutAndErrorKnown(ops, n, id);
  }

  // ---- order ---------------------------------------------------------------------------------

  /** Of one session: messages that went out and stayed out, in order; and messages put in and not cleared, in order. */
  datatype Trail = Trail(delivered: seq<string>, accepted: seq<string>)

  function Drop(s: seq<string>, n: nat): seq<string> {
    if n <= |s| then s[..|s| - n] else []
  }

  function Without(s: seq<string>, k: nat): seq<string> {
    if k < |s| then s[..k] + s[k + 1..] else s
  }

  /** The trail of the first `n` operations; the failure reported by operation `m` is of message `which[m]` of those
      out then. */
  function Follow(ops: seq<Op>, which: seq<nat>, id: string, n: nat): Trail
    requires n <= |ops| == |which|
  {
    if n == 0 then Trail([], [])
    else
      var t, op := Follow(ops, which, id, n - 1), ops[n - 1];
      if op.id != id then t
      else
        match op
        case Push(_, text) => t.(accepted := t.accepted + [text])
        case Next(_, _, _) =>
          var m := Released(ops, n - 1, id);
          if m.Some? then t.(delivered := t.delivered + [m.value]) else t
        case Fail(_, _, _) => t.(delivered := Without(t.delivered, which[n - 1]))
        case Clear(_) => t.(accepted := Drop(t.accepted, |Queued(At(ops, n - 1), id)|))
  }

  /** Does operation `n` report a failure for `id`? */
  predicate Reports(ops: seq<Op>, id: string, n: nat)
    requires n < |ops|
  {
    ops[n].Fail? && ops[n].id == id
  }

  /** Every failure reported is of a message that is out. */
  predicate Honest(ops: seq<Op>, which: seq<nat>, id: string)
    requires |ops| == |which|
  {
    forall n :: 0 <= n < |ops| ==> HonestAt(ops, which, id, n)
  }

  predicate HonestAt(ops: seq<Op>, which: seq<nat>, id: string, n: nat)
    requires n < |ops| == |which|
  {
    var out := Follow(ops, which, id, n).delivered;
    Reports(ops, id, n) ==> which[n] < |out| && out[which[n]] == ops[n].text
  }

  /** What stayed out, then what waits, is what was put in, in the order it was put in. */
  predicate InOrder(ops: seq<Op>, which: seq<nat>, id: string, n: nat)
    requires n <= |ops| == |which|
  {
    var t := Follow(ops, which, id, n);
    t.delivered + Queued(At(ops, n), id) == t.accepted
  }

  /** From message `k` on, all of them are the same text. */
  predicate AllSame(out: seq<string>, k: nat) {
    forall m :: k <= m < |out| ==> out[m] == out[k]
  }

  /** Putting message `k` back in front of the queue keeps the order exactly when every message handed out after it
      is the same text. */
  lemma PutBackInOrder(out: seq<string>, k: nat, queue: seq<string>)
    requires k < |out|
    ensures Without(out, k) + ([out[k]] + queue) == out + queue <==> AllSame(out, k)
  {
    var back := Without(out, k) + [out[k]];
    assert Without(out, k) + ([out[k]] + queue) == back + queue;
    assert back == out[..k] + (out[k + 1..] + [out[k]]);
    if back + queue == out + queue {
      assert (back + queue)[..|out|] == back && (out + queue)[..|out|] == out;
      assert out == out[..k] + (out[k + 1..] + [out[k]]);
      Rotated(out, k, |out|);
    }
    if AllSame(out, k) {
      Turned(out, k);
    }
  }

  /** A text that is its own rotation from `k` on repeats what stands at `k`. */
  lemma {:induction false} Rotated(out: seq<string>, k: nat, n: nat)
    requires k < |out| && out == out[..k] + (out[k + 1..] + [out[k]]) && k < n <= |out|
    ensures forall m :: k <= m < n ==> out[m] == out[k]
  {
    if n == k + 1 {
    } else {
      Rotated(out, k, n - 1);
      var turned := out[k + 1..] + [out[k]];
      assert (out[..k] + turned)[n - 2] == turned[n - 2 - k] == out[n - 1];
    }
  }

  lemma Turned(out: seq<string>, k: nat)
    requires k < |out| && AllSame(out, k)
    ensures out[..k] + (out[k + 1..] + [out[k]]) == out
  {
  }

  /** An operation other than a failure report keeps the order. */
  lemma OthersInOrder(ops: seq<Op>, which: seq<nat>, id: string, n: nat)
    requires n < |ops| == |which| && InOrder(ops, which, id, n) && !Reports(ops, id, n)
    ensures InOrder(ops, which, id, n + 1)
  {
    var b, op, t := At(ops, n), ops[n], Follow(ops, which, id, n);
    var queue := Queued(b, id);
    if op.id != id {
      OthersKept(b, op, id);
    } else {
      match op {
        case Push(_, text) =>
          QueueIs(b, id, queue + [text]);
          assert t.delivered + (queue + [text]) == (t.delivered + queue) + [text];
        case Next(_, busy, lastSeq) =>
          NextInOrder(b, id, busy, lastSeq, t.delivered);
        case Clear(_) => assert Drop(t.delivered + queue, |queue|) == t.delivered;
      }
    }
  }

  lemma NextInOrder(b: Box, id: string, busy: bool, lastSeq: int, out: seq<string>)
    ensures var r := NextOf(b, id, busy, lastSeq);
            (if r.1.Some? then out + [r.1.value] else out) + Queued(r.0, id) == out + Queued(b, id)
  {
    var queue := Queued(b, id);
    if NextOf(b, id, busy, lastSeq).1.Some? {
      QueueIs(b, id, queue[1..]);
      assert queue == [queue[0]] + queue[1..];
      assert out + [queue[0]] + queue[1..] == out + queue;
    }
  }

  /** The order survives a failure report exactly when the messages handed out after the failed one are the same
      text. */
  lemma ReportInOrder(ops: seq<Op>, which: seq<nat>, id: string, n: nat)
    requires n < |ops| == |which| && Honest(ops, which, id) && InOrder(ops, which, id, n) && Reports(ops, id, n)
    ensures InOrder(ops, which, id, n + 1) <==> AllSame(Follow(ops, which, id, n).delivered, which[n])
  {
    var b, out := At(ops, n), Follow(ops, which, id, n).delivered;
    assert HonestAt(ops, which, id, n);
    PutBackInOrder(out, which[n], Queued(b, id));
    QueueIs(b, id, [ops[n].text] + Queued(b, id));
  }

  /** Every failure is of a message after which only the same text went out. */
  predicate Harmless(ops: seq<Op>, which: seq<nat>, id: string, n: nat)
    requires n <= |ops| == |which|
  {
    forall m :: 0 <= m < n ==> HarmlessAt(ops, which, id, m)
  }

  /** If the `n`-th operation reports a failure, only the same text went out after the failed message. */
  predicate HarmlessAt(ops: seq<Op>, which: seq<nat>, id: string, n: nat)
    requires n < |ops| == |which|
  {
    Reports(ops, id, n) ==> AllSame(Follow(ops, which, id, n).delivered, which[n])
  }

  lemma StepInOrder(ops: seq<Op>, which: seq<nat>, id: string, n: nat)
    requires n < |ops| == |which| && Honest(ops, which, id) && InOrder(ops, which, id, n)
    ensures InOrder(ops, which, id, n + 1) <==> HarmlessAt(ops, which, id, n)
  {
    if Reports(ops, id, n) {
      ReportInOrder(ops, which, id, n);
    } else {
      OthersInOrder(ops, which, id, n);
    }
  }

  /** The order was kept at every moment so far. */
  predicate OrderKept(ops: seq<Op>, which: seq<nat>, id: string, n: nat)
    requires n <= |ops| == |which|
  {
    forall m :: 0 <= m <= n ==> InOrder(ops, which, id, m)
  }

  lemma OrderKeptSteps(ops: seq<Op>, which: seq<nat>, id: string, n: nat)
    requires 0 < n <= |ops| == |which|
    ensures OrderKept(ops, which, id, n) <==> OrderKept(ops, which, id, n - 1) && InOrder(ops, which, id, n)
    ensures OrderKept(ops, which, id, n - 1) ==> InOrder(ops, which, id, n - 1)
  {
  }

  lemma StepKept(ops: seq<Op>, which: seq<nat>, id: string, n: nat)
    requires n < |ops| == |which| && Honest(ops, which, id)
    ensures InOrder(ops, which, id, n) ==> (InOrder(ops, which, id, n + 1) <==> HarmlessAt(ops, which, id, n))
  {
    if InOrder(ops, which, id, n) {
      StepInOrder(ops, which, id, n);
    }
  }

  lemma OneMoreKept(ops: seq<Op>, which: seq<nat>, id: string, n: nat)
    requires 0 < n <= |ops| == |which|
    requires OrderKept(ops, which, id, n - 1) <==> Harmless(ops, which, id, n - 1)
    requires InOrder(ops, which, id, n - 1) ==> (InOrder(ops, which, id, n) <==> HarmlessAt(ops, which, id, n - 1))
    ensures OrderKept(ops, which, id, n) <==> Harmless(ops, which, id, n)
  {
    OrderKeptSteps(ops, which, id, n);
    HarmlessSteps(ops, which, id, n);
  }

  lemma HarmlessSteps(ops: seq<Op>, which: seq<nat>, id: string, n: nat)
    requires 0 < n <= |ops| == |which|
    ensures Harmless(ops, which, id, n) <==> Harmless(ops, which, id, n - 1) && HarmlessAt(ops, which, id, n - 1)
  {
  }

  /** Over every run, whatever fails and whenever that is reported: messages stay out in the order they
      were put in, at every moment, if and only if every failure is harmless. */
  lemma {:induction false} OrderKeptExactly(ops: seq<Op>, which: seq<nat>, id: string, n: nat)
    requires n <= |ops| == |which| && Honest(ops, which, id)
    ensures OrderKept(ops, which, id, n) <==> Harmless(ops, which, id, n)
  {
    if n == 0 {
      assert InOrder(ops, which, id, 0);
    } else {
      OrderKeptExactly(ops, which, id, n - 1);
      StepKept(ops, which, id, n - 1);
      OneMoreKept(ops, which, id, n);
    }
  }

  /** Every failure is of the message handed out last, and is reported before the next goes out. */
  predicate Prompt(ops: seq<Op>, which: seq<nat>, id: string)
    requires |ops| == |which|
  {
    forall n :: 0 <= n < |ops| && Reports(ops, id, n) ==> which[n] == |Follow(ops, which, id, n).delivered| - 1
  }

  /** With failures reported promptly, messages stay out in the order they were put in. */
  lemma DeliveredInOrder(ops: seq<Op>, which: seq<nat>, id: string, n: nat)
    requires n <= |ops| == |which| && Honest(ops, which, id) && Prompt(ops, which, id)
    ensures InOrder(ops, which, id, n)
  {
    OrderKeptExactly(ops, which, id, n);
    assert Harmless(ops, which, id, n);
  }

  /** Two messages put in and handed out, then both reported failed, the first one first. */
  function LateOps(id: string, a: string, b: string, error: string): seq<Op> {
    [Push(id, a), Push(id, b), Next(id, false, 0), Next(id, false, 1), Fail(id, a, error), Fail(id, b, error)]
  }

  /** Two messages out, and the first reported failed before the second: the order is lost, unless they are the same
      text. */
  lemma LateFailureReorders(id: string, a: string, b: string, error: string)
    ensures var ops := LateOps(id, a, b, error);
            var which := [0, 0, 0, 0, 0, 0];
            && Honest(ops, which, id) && Queued(At(ops, 6), id) == [b, a]
            && (OrderKept(ops, which, id, 6) <==> a == b)
  {
    var ops := LateOps(id, a, b, error);
    var which := [0, 0, 0, 0, 0, 0];
    LateRun(ops, id, a, b, error);
    LateTrail(ops, which, id, a, b, error);
    OrderKeptExactly(ops, which, id, 6);
    LateHarmless(ops, which, id, a, b, error);
  }

  lemma LateHarmless(ops: seq<Op>, which: seq<nat>, id: string, a: string, b: string, error: string)
    requires ops == LateOps(id, a, b, error)
    requires which == [0, 0, 0, 0, 0, 0]
    requires Follow(ops, which, id, 4).delivered == [a, b] && Follow(ops, which, id, 5).delivered == [b]
    ensures Harmless(ops, which, id, 6) <==> a == b
  {
    var pair := [a, b];
    assert AllSame(pair, 0) <==> pair[1] == pair[0];
    assert HarmlessAt(ops, which, id, 4) <==> AllSame(pair, 0);
    assert HarmlessAt(ops, which, id, 5);
    assert forall m :: 0 <= m < 4 ==> HarmlessAt(ops, which, id, m);
  }

  lemma LateRun(ops: seq<Op>, id: string, a: string, b: string, error: string)
    requires ops == LateOps(id, a, b, error)
    ensures Queued(At(ops, 6), id) == [b, a]
    ensures Released(ops, 2, id) == Some(a) && Released(ops, 3, id) == Some(b)
  {
    assert At(ops, 1) == Pushed(EMPTY_BOX, id, a);
    assert Queued(At(ops, 2), id) == [a, b];
    assert Queued(At(ops, 3), id) == [b] && At(ops, 3).inFlight == map[id := 0];
    assert Queued(At(ops, 4), id) == [];
    assert Queued(At(ops, 5), id) == [a];
  }

  lemma LateTrail(ops: seq<Op>, which: seq<nat>, id: string, a: string, b: string, error: string)
    requires ops == LateOps(id, a, b, error)
    requires which == [0, 0, 0, 0, 0, 0]
    requires Released(ops, 2, id) == Some(a) && Released(ops, 3, id) == Some(b)
    ensures Follow(ops, which, id, 4).delivered == [a, b] && Follow(ops, which, id, 5).delivered == [b]
    ensures Honest(ops, which, id)
  {
    LateFollow(ops, which, id, a, b, error);
    assert HonestAt(ops, which, id, 4) && HonestAt(ops, which, id, 5);
    assert forall n :: 0 <= n < 4 ==> HonestAt(ops, which, id, n);
  }

  lemma LateFollow(ops: seq<Op>, which: seq<nat>, id: string, a: string, b: string, error: string)
    requires ops == LateOps(id, a, b, error)
    requires which == [0, 0, 0, 0, 0, 0]
    requires Released(ops, 2, id) == Some(a) && Released(ops, 3, id) == Some(b)
    ensures Follow(ops, which, id, 4).delivered == [a, b] && Follow(ops, which, id, 5).delivered == [b]
  {
    assert Follow(ops, which, id, 1).delivered == [];
    assert Follow(ops, which, id, 2).delivered == [];
    assert Follow(ops, which, id, 3).delivered == [a];
    assert Follow(ops, which, id, 4).delivered == [a, b];
    assert Without([a, b], 0) == [b];
  }

  // ---- the object itself ---------------------------------------------------------------------

  class Outbox {
    var queues: map<string, seq<string>>
    var inFlight: map<string, int>
    var errors: map<string, string>

    /** No empty queue is kept. */
    ghost predicate Valid()
      reads this
    {
      forall id :: id in queues ==> queues[id] != []
    }

    ghost function View(): Box
      reads this
    {
      Box(queues, inFlight, errors)
    }

    constructor ()
      ensures Valid() && View() == EMPTY_BOX
    {
      queues, inFlight, errors := map[], map[], map[];
    }

    method Add(id: string, text: string)
      requires Valid()
      modifies this
      ensures Valid() && View() == Pushed(old(View()), id, text)
    {
      errors := errors - {id};
      var queue := if id in queues then queues[id] else [];
      queues := queues[id := queue + [text]];
    }

    method Discard(id: string)
      requires Valid()
      modifies this
      ensures Valid() && View() == ClearedOf(old(View()), id)
    {
      queues := queues - {id};
    }

    method Release(id: string, busy: bool, lastSeq: int) returns (text: Option<string>)
      requires Valid()
      modifies this
      ensures Valid() && (View(), text) == NextOf(old(View()), id, busy, lastSeq)
    {
      if busy {
        inFlight := inFlight - {id};
        return None;
      }
      if id in inFlight {
        if lastSeq <= inFlight[id] {
          return None;
        }
        inFlight := inFlight - {id};
      }
      if id !in queues {
        assert inFlight == old(inFlight) - {id};
        return None;
      }
      var queue := queues[id];
      text := Some(queue[0]);
      queue := queue[1..];
      queues := if queue == [] then queues - {id} else queues[id := queue];
      inFlight := inFlight[id := lastSeq];
      assert inFlight == old(inFlight)[id := lastSeq];
    }

    method Failed(id: string, text: string, error: string)
      requires Valid()
      modifies this
      ensures Valid() && View() == FailedBack(old(View()), id, text, error)
    {
      inFlight := inFlight - {id};
      var queue := if id in queues then queues[id] else [];
      queues := queues[id := [text] + queue];
      errors := errors[id := error];
    }
  }
}
