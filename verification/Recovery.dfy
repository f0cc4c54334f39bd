/** What a replay restores, and what a pause does not disturb. */
module Recovery {
  import opened Wrappers
  import opened Bytes
  import opened Frames
  import opened Protocol
  import opened Network

  /** `p` receives `fs` in order, frame `i` at time `clock[i]`. */
  function Feed(p: Peer, fs: seq<Frame>, clock: seq<Time>): Peer
    requires |clock| == |fs|
    decreases |fs|
  {
    if fs == [] then p else Feed(Perform(p, Receive(fs[0], clock[0])), fs[1..], clock[1..])
  }

  /** `to` is owed nothing before message `id`. */
  predicate CaughtUpTo(from: Peer, to: Peer, id: nat) {
    && id <= to.ep.inMsg <= |from.sent|
    && to.got == from.sent[..to.ep.inMsg]
  }

  /** `fs` are the messages of `sent` after the first `done`. */
  predicate Consecutive(fs: seq<Frame>, done: nat, sent: seq<seq<byte>>) {
    && done + |fs| == |sent|
    && forall i :: 0 <= i < |fs| ==> fs[i].ty == Regular && fs[i].id == done + 1 + i && fs[i].data == sent[done + i]
  }

  /** Fed in order, frames that begin no later than what is owed deliver all the rest. */
  lemma {:induction false} ReplayCatchesUp(from: Peer, to: Peer, done: nat, fs: seq<Frame>, clock: seq<Time>)
    requires Consecutive(fs, done, from.sent) && |clock| == |fs| && CaughtUpTo(from, to, done)
    ensures Feed(to, fs, clock).got == from.sent
    decreases |fs|
  {
    if fs == [] {
      assert from.sent[..|from.sent|] == from.sent;
    } else {
      var to' := Perform(to, Receive(fs[0], clock[0]));
      if to.ep.inMsg == done {
        assert to'.got == from.sent[..done] + [from.sent[done]] == from.sent[..done + 1];
      }
      ReplayCatchesUp(from, to', done + 1, fs[1..], clock[1..]);
    }
  }

  lemma QueueConsecutive(n: Net, left: bool, ack: u32)
    requires Reachable(n)
    requires var e := Side(n, left).ep; e.outAck <= ack && ack - e.outAck <= |e.unacked|
    ensures var e := Side(n, left).ep; Consecutive(Queued(e.unacked[ack - e.outAck..]), ack, Side(n, left).sent)
  {
    NothingForgotten(n, left);
  }

  lemma QueueReplayed(n: Net, left: bool, q: seq<Unacked>, ack: u32, to: Peer, clock: seq<Time>)
    requires Reachable(n)
    requires Side(n, left).ep.outAck <= ack <= to.ep.inMsg
    requires to.ep.inMsg == Side(n, !left).ep.inMsg && to.got == Side(n, !left).got
    requires ack - Side(n, left).ep.outAck <= |Side(n, left).ep.unacked|
    requires q == Side(n, left).ep.unacked[ack - Side(n, left).ep.outAck..]
    requires |clock| == |q|
    ensures Feed(to, Queued(q), clock).got == Side(n, left).sent
  {
    QueueConsecutive(n, left, ack);
    ReceivedPrefix(n, left);
    ReplayCatchesUp(Side(n, left), to, ack, Queued(q), clock);
  }

  lemma ReceivedPrefix(n: Net, left: bool)
    requires Reachable(n)
    ensures var from, to := Side(n, left), Side(n, !left);
            to.ep.inMsg <= |from.sent| && to.got == from.sent[..to.ep.inMsg]
  {
    ReachableInv(n);
  }

  /** Whatever was lost before, the frames of an unpaused `EndReconnect`, received in order, complete the peer's
      deliveries. */
  lemma ReconnectRecoversAll(n: Net, left: bool, now: Time, clock: seq<Time>)
    requires Reachable(n) && !Side(n, left).ep.paused
    requires |clock| == |EndReconnectStep(Side(n, left).ep, now).out|
    ensures Feed(Side(n, !left), EndReconnectStep(Side(n, left).ep, now).out, clock).got == Side(n, left).sent
  {
    var me, other := Side(n, left), Side(n, !left);
    NothingForgotten(n, left);
    var out := EndReconnectStep(me.ep, now).out;
    ReplayedOut(me.ep, now);
    AckTells(other, out[0], clock[0]);
    QueueReplayed(n, left, me.ep.unacked, me.ep.outAck, Perform(other, Receive(out[0], clock[0])), clock[1..]);
  }

  /** The frames of an unpaused `EndReconnect`. */
  lemma ReplayedOut(e: Endpoint, now: Time)
    requires !e.paused
    ensures var out := EndReconnectStep(e, now).out;
            out != [] && out[0] == Empty(Ack, e.inMsg) && out[1..] == Queued(e.unacked) && e.unacked[0..] == e.unacked
  {
  }

  /** An acknowledgement delivers nothing. */
  lemma AckTells(p: Peer, frame: Frame, now: Time)
    requires frame.ty == Ack
    ensures var q := Perform(p, Receive(frame, now)); q.ep.inMsg == p.ep.inMsg && q.got == p.got
  {
  }

  lemma AnswerIsQueue(me: Peer, request: Frame, now: Time, ack: u32)
    requires QueueExact(me.ep, me.sent) && !me.ep.paused && request.ty == ReplayRequest
    requires request.ack <= me.ep.outMsg
    requires ack == if request.ack > me.ep.outAck then request.ack else me.ep.outAck
    ensures ReceiveStep(me.ep, request, now).out == Queued(me.ep.unacked[ack - me.ep.outAck..])
  {
    if request.ack > me.ep.outAck {
      TrimExact(me.ep.unacked, me.ep.outAck + 1, ack);
    } else {
      assert me.ep.unacked[0..] == me.ep.unacked;
    }
  }

  /** So does the answer to any replay request the peer ever wrote. */
  lemma ReplayRequestRecoversAll(n: Net, left: bool, request: Frame, now: Time, clock: seq<Time>)
    requires Reachable(n) && !Side(n, left).ep.paused
    requires request in Side(n, !left).wire && request.ty == ReplayRequest
    requires |clock| == |ReceiveStep(Side(n, left).ep, request, now).out|
    ensures Feed(Side(n, !left), ReceiveStep(Side(n, left).ep, request, now).out, clock).got == Side(n, left).sent
  {
    var me, other := Side(n, left), Side(n, !left);
    NothingForgotten(n, left);
    NothingForgotten(n, !left);
    ReachableInv(n);
    assert Honest(request, other.ep.inAck, other.sent);
    var ack := if request.ack > me.ep.outAck then request.ack else me.ep.outAck;
    var q := me.ep.unacked[ack - me.ep.outAck..];
    AnswerIsQueue(me, request, now, ack);
    QueueReplayed(n, left, q, ack, other, clock);
  }

  /** A fresh transport always recovers: beginning a reconnect lifts any pause. */
  lemma FreshTransportRecovers(n: Net, left: bool, began: Time, now: Time, clock: seq<Time>)
    requires Reachable(n)
    requires var e := BeginReconnectStep(Side(n, left).ep, began).next; |clock| == |EndReconnectStep(e, now).out|
    ensures var e := BeginReconnectStep(Side(n, left).ep, began).next;
            Feed(Side(n, !left), EndReconnectStep(e, now).out, clock).got == Side(n, left).sent
  {
    var s := Step(left, BeginReconnect(began));
    var n' := Take(n, s);
    ReachableStep(n, s);
    ReconnectRecoversAll(n', left, now, clock);
  }

  lemma ReachableStep(n: Net, s: Step)
    requires Reachable(n) && StepEnabled(n, s)
    ensures Reachable(Take(n, s))
  {
    var t0: Time, t1: Time, steps :| Runs(Start(t0, t1), steps) && After(Start(t0, t1), steps) == n;
    RunsExtend(Start(t0, t1), steps, s);
  }

  lemma {:induction false} RunsExtend(n: Net, steps: seq<Step>, s: Step)
    requires Runs(n, steps) && StepEnabled(After(n, steps), s)
    ensures Runs(n, steps + [s]) && After(n, steps + [s]) == Take(After(n, steps), s)
    decreases |steps|
  {
    if steps == [] {
      assert [s][1..] == [];
    } else {
      RunsExtend(Take(n, steps[0]), steps[1..], s);
      assert (steps + [s])[1..] == steps[1..] + [s];
    }
  }

  /** The same over a byte stream: the replay's encoding, read back in any chunks. */
  lemma RecoveryOverBytes(n: Net, left: bool, now: Time, clock: seq<Time>, chunks: seq<seq<byte>>)
    requires Reachable(n) && !Side(n, left).ep.paused
    requires forall data :: data in Side(n, left).sent ==> |data| <= MAX_FRAME_LEN
    requires |clock| == |EndReconnectStep(Side(n, left).ep, now).out|
    requires Concat(chunks) == EncodingAll(EndReconnectStep(Side(n, left).ep, now).out)
    ensures var read := ReadAll([], chunks);
            && !read.failed && |read.frames| == |clock|
            && Feed(Side(n, !left), read.frames, clock).got == Side(n, left).sent
  {
    NothingForgotten(n, left);
    var e := Side(n, left).ep;
    var out := EndReconnectStep(e, now).out;
    forall f | f in out
      ensures Fits(f)
    {
      var i :| 0 <= i < |out| && out[i] == f;
      if i > 0 {
        assert f == e.unacked[i - 1].frame;
        assert f.data in Side(n, left).sent;
      }
    }
    ChunkedFramesArrive(out, chunks);
    ReconnectRecoversAll(n, left, now, clock);
  }

  // ---- pausing -------------------------------------------------------------------------------

  /** The same endpoint, were it never paused. */
  function Twin(e: Endpoint): Endpoint {
    e.(paused := false, held := [])
  }

  /** The same call, with a pause frame reduced to the acknowledgement it carries. */
  function TwinOp(op: Op): Op {
    if op.Receive? && op.frame.ty == Pause then op.(frame := op.frame.(ty := MessageType.None)) else op
  }

  /** Frames other than the one final `Disconnect`, which is written past a pause. */
  function Counted(fs: seq<Frame>): seq<Frame> {
    if fs == [] then [] else (if fs[0].ty == Disconnect then [] else [fs[0]]) + Counted(fs[1..])
  }

  lemma {:induction false} CountedAppend(a: seq<Frame>, b: seq<Frame>)
    ensures Counted(a + b) == Counted(a) + Counted(b)
  {
    if a == [] {
      assert a + b == b;
    } else {
      assert (a + b)[1..] == a[1..] + b;
      CountedAppend(a[1..], b);
    }
  }

  lemma {:induction false} CountedAll(fs: seq<Frame>)
    requires forall f :: f in fs ==> f.ty != Disconnect
    ensures Counted(fs) == fs
  {
    if fs == [] {
    } else {
      CountedAll(fs[1..]);
    }
  }

  /** A call made between two reconnects. */
  predicate Connected(op: Op) {
    !op.BeginReconnect? && !op.Flow?
  }

  predicate Callable(e: Endpoint, ops: seq<Op>)
    decreases |ops|
  {
    ops == [] || (Connected(ops[0]) && (ops[0].Send? ==> e.outMsg < U32_MAX)
        && Callable(React(e, ops[0]).next, ops[1..]))
  }

  datatype Trace = Trace(last: Endpoint, written: seq<Frame>, told: seq<Inbound>)

  function Played(e: Endpoint, ops: seq<Op>): Trace
    requires Callable(e, ops)
    decreases |ops|
  {
    if ops == [] then Trace(e, [], [])
    else
      var r := React(e, ops[0]);
      var t := Played(r.next, ops[1..]);
      Trace(t.last, r.out + t.written, (if r.inbound.Some? then [r.inbound.value] else []) + t.told)
  }

  function TwinOps(ops: seq<Op>): (t: seq<Op>)
    ensures |t| == |ops|
  {
    if ops == [] then [] else [TwinOp(ops[0])] + TwinOps(ops[1..])
  }

  predicate Holdable(e: Endpoint) {
    && (forall f :: f in e.held ==> f.ty != Disconnect)
    && (forall u :: u in e.unacked ==> u.frame.ty != Disconnect)
    && (!e.paused ==> e.held == [])
  }

  lemma {:induction false} TrimSubset(q: seq<Unacked>, ack: u32)
    ensures forall u :: u in TrimAcked(q, ack) ==> u in q
  {
    if q != [] && q[0].frame.id <= ack {
      TrimSubset(q[1..], ack);
    }
  }

  /** `r` does what `q`, the twin's reaction, does; what it does not write stays held behind `held`. */
  predicate Matched(held: seq<Frame>, r: Reaction, q: Reaction) {
    && Holdable(r.next) && Twin(r.next) == q.next && r.inbound == q.inbound && r.dead == q.dead
    && Counted(r.out) + r.next.held == held + Counted(q.out)
  }

  lemma EmitMatched(e: Endpoint, fs: seq<Frame>)
    requires Holdable(e) && forall f :: f in fs ==> f.ty != Disconnect
    ensures Matched(e.held, EmitAll(e, fs), EmitAll(Twin(e), fs))
  {
    CountedAll(fs);
  }

  lemma QuietMatched(e: Endpoint, inbound: Option<Inbound>)
    requires Holdable(e)
    ensures Matched(e.held, Reaction(e, [], inbound), Reaction(Twin(e), [], inbound))
  {
  }

  lemma QueuedNoDisconnect(e: Endpoint, now: Time)
    requires Holdable(e)
    ensures forall f :: f in Queued(e.unacked) ==> f.ty != Disconnect
    ensures Holdable(e.(unacked := Stamped(e.unacked, now)))
  {
  }

  lemma SendMatched(e: Endpoint, data: seq<byte>, now: Time)
    requires Holdable(e) && e.outMsg < U32_MAX
    ensures Matched(e.held, SendStep(e, data, now), SendStep(Twin(e), data, now))
  {
    var frame := Frame(Regular, e.outMsg + 1, e.inMsg, data);
    var stamp := if e.reconnecting then Option.None else Some(now);
    var e' := e.(outMsg := e.outMsg + 1, inAck := e.inMsg, unacked := e.unacked + [Unacked(frame, stamp)]);
    QuietMatched(e', Option.None);
    EmitMatched(e', [frame]);
  }

  lemma TickMatched(e: Endpoint, now: Time)
    requires Holdable(e)
    ensures Matched(e.held, TickStep(e, now), TickStep(Twin(e), now))
  {
    QuietMatched(e, Option.None);
    EmitMatched(e.(inAck := e.inMsg), [Empty(Ack, e.inMsg)]);
  }

  lemma EndReconnectMatched(e: Endpoint, now: Time)
    requires Holdable(e)
    ensures Matched(e.held, EndReconnectStep(e, now), EndReconnectStep(Twin(e), now))
  {
    QueuedNoDisconnect(e, now);
    var e' := e.(reconnecting := false, inAck := e.inMsg, unacked := Stamped(e.unacked, now));
    EmitMatched(e', [Empty(Ack, e.inMsg)] + Queued(e.unacked));
  }

  lemma StepTransparent(e: Endpoint, op: Op)
    requires Holdable(e) && Connected(op) && (op.Send? ==> e.outMsg < U32_MAX)
    ensures Matched(e.held, React(e, op), React(Twin(e), TwinOp(op)))
  {
    match op {
      case Send(data, now) => SendMatched(e, data, now);
      case SendControl(data) => EmitMatched(e, [Frame(Control, 0, 0, data)]);
      case Receive(frame, now) => ReceiveMatched(e, frame, now);
      case Tick(now) => TickMatched(e, now);
      case SendKeepAlive => EmitMatched(e.(inAck := e.inMsg), [Empty(KeepAlive, e.inMsg)]);
      case EndReconnect(now) => EndReconnectMatched(e, now);
      case SendDisconnect =>
    }
  }

  lemma AckMatched(e: Endpoint, ack: u32, now: Time)
    requires Holdable(e)
    ensures var a := TakeAck(e, ack, now); Holdable(a) && Twin(a) == TakeAck(Twin(e), ack, now) && a.held == e.held
  {
    TrimSubset(e.unacked, ack);
  }

  /** Once its acknowledgement was taken, taking it again changes nothing. */
  lemma AckOnce(e: Endpoint, frame: Frame, now: Time)
    ensures var a := TakeAck(e, frame.ack, now);
            && a.lastRead == now && frame.ack <= a.outAck
            && ReceiveStep(a, frame, now) == ReceiveStep(e, frame, now)
  {
  }

  lemma ReceiveMatched(e: Endpoint, frame: Frame, now: Time)
    requires Holdable(e)
    ensures Matched(e.held, ReceiveStep(e, frame, now), React(Twin(e), TwinOp(Receive(frame, now))))
  {
    var a := TakeAck(e, frame.ack, now);
    var f := TwinOp(Receive(frame, now)).frame;
    AckMatched(e, frame.ack, now);
    AckOnce(e, frame, now);
    AckOnce(Twin(e), f, now);
    TakenMatched(a, frame, now);
  }

  lemma TakenMatched(a: Endpoint, frame: Frame, now: Time)
    requires Holdable(a) && a.lastRead == now && frame.ack <= a.outAck
    ensures Matched(a.held, ReceiveStep(a, frame, now), ReceiveStep(Twin(a), TwinOp(Receive(frame, now)).frame, now))
  {
    if frame.ty == ReplayRequest {
      ReplayMatched(a, frame, now);
    } else if frame.ty == Resume {
      CountedAll(a.held);
    } else if frame.ty == Regular {
      RegularMatched(a, frame, now);
    } else {
      OtherMatched(a, frame, now);
    }
  }

  lemma ReplayMatched(a: Endpoint, frame: Frame, now: Time)
    requires Holdable(a) && frame.ty == ReplayRequest && a.lastRead == now && frame.ack <= a.outAck
    ensures Matched(a.held, ReceiveStep(a, frame, now), ReceiveStep(Twin(a), frame, now))
  {
    QueuedNoDisconnect(a, now);
    EmitMatched(a.(unacked := Stamped(a.unacked, now)), Queued(a.unacked));
  }

  /** Frames that only tell, acknowledge or pause. */
  lemma OtherMatched(a: Endpoint, frame: Frame, now: Time)
    requires Holdable(a) && a.lastRead == now && frame.ack <= a.outAck
    requires frame.ty != Regular && frame.ty != ReplayRequest && frame.ty != Resume
    ensures Matched(a.held, ReceiveStep(a, frame, now), ReceiveStep(Twin(a), TwinOp(Receive(frame, now)).frame, now))
  {
    QuietMatched(a, ReceiveStep(a, frame, now).inbound);
    QuietMatched(a.(paused := true), Option.None);
  }

  lemma RegularMatched(a: Endpoint, frame: Frame, now: Time)
    requires Holdable(a) && frame.ty == Regular && a.lastRead == now && frame.ack <= a.outAck
    ensures Matched(a.held, ReceiveStep(a, frame, now), ReceiveStep(Twin(a), frame, now))
  {
    QuietMatched(a, Option.None);
    if frame.id == a.inMsg + 1 {
      QuietMatched(a.(inMsg := frame.id, lastIncomingRegular := Some(now)), Some(Data(frame.data)));
    }
    EmitMatched(a.(lastReplayRequest := Some(now)), [Empty(ReplayRequest, 0)]);
  }

  /** One call, then the rest. */
  lemma PlayedStep(e: Endpoint, r: Reaction, op: Op, rest: seq<Op>)
    requires Connected(op) && (op.Send? ==> e.outMsg < U32_MAX) && r == React(e, op) && Callable(r.next, rest)
    ensures Callable(e, [op] + rest)
    ensures Played(e, [op] + rest)
         == var t := Played(r.next, rest);
            Trace(t.last, r.out + t.written, (if r.inbound.Some? then [r.inbound.value] else []) + t.told)
  {
    assert ([op] + rest)[1..] == rest;
  }

  predicate Undisturbed(held: seq<Frame>, t: Trace, u: Trace) {
    && Twin(t.last) == u.last && t.told == u.told
    && Counted(t.written) + t.last.held == held + Counted(u.written)
  }

  lemma UndisturbedStep(held: seq<Frame>, r: Reaction, q: Reaction, t: Trace, u: Trace, told: seq<Inbound>)
    requires Matched(held, r, q) && Undisturbed(r.next.held, t, u)
    ensures Undisturbed(held, Trace(t.last, r.out + t.written, told + t.told),
        Trace(u.last, q.out + u.written, told + u.told))
  {
    CountedAppend(r.out, t.written);
    CountedAppend(q.out, u.written);
    Glued(Counted(r.out), Counted(t.written), t.last.held, r.next.held, Counted(u.written), held, Counted(q.out));
  }

  /** A run from a paused endpoint and its twin's run agree. */
  ghost predicate Transparent(e: Endpoint, ops: seq<Op>) {
    && Callable(e, ops) && Callable(Twin(e), TwinOps(ops))
    && Undisturbed(e.held, Played(e, ops), Played(Twin(e), TwinOps(ops)))
  }

  lemma TransparentStep(e: Endpoint, op: Op, rest: seq<Op>)
    requires Holdable(e) && Connected(op) && (op.Send? ==> e.outMsg < U32_MAX)
    requires Transparent(React(e, op).next, rest)
    ensures Transparent(e, [op] + rest)
  {
    var r, q := React(e, op), React(Twin(e), TwinOp(op));
    StepTransparent(e, op);
    PlayedStep(e, r, op, rest);
    PlayedStep(Twin(e), q, TwinOp(op), TwinOps(rest));
    assert ([op] + rest)[1..] == rest && TwinOps([op] + rest) == [TwinOp(op)] + TwinOps(rest);
    UndisturbedStep(e.held, r, q, Played(r.next, rest), Played(q.next, TwinOps(rest)),
                    if r.inbound.Some? then [r.inbound.value] else []);
  }

  /** Pausing neither drops, duplicates nor reorders: what is written plus what is still held is, in order, what the
      never-paused endpoint writes, and nothing else differs. */
  lemma {:induction false} PauseTransparent(e: Endpoint, ops: seq<Op>)
    requires Holdable(e) && Callable(e, ops)
    ensures Callable(Twin(e), TwinOps(ops))
    ensures Undisturbed(e.held, Played(e, ops), Played(Twin(e), TwinOps(ops)))
    decreases |ops|
  {
    if ops == [] {
    } else {
      StepTransparent(e, ops[0]);
      PauseTransparent(React(e, ops[0]).next, ops[1..]);
      TransparentStep(e, ops[0], ops[1..]);
      assert [ops[0]] + ops[1..] == ops;
    }
  }

  /** Every endpoint of every run is one the theorem above speaks of. */
  lemma ReachableHoldable(n: Net, left: bool)
    requires Reachable(n)
    ensures Holdable(Side(n, left).ep)
  {
    var t0: Time, t1: Time, steps :| Runs(Start(t0, t1), steps) && After(Start(t0, t1), steps) == n;
    RunHoldable(Start(t0, t1), steps);
  }

  lemma {:induction false} RunHoldable(n: Net, steps: seq<Step>)
    requires Runs(n, steps) && Holdable(n.left.ep) && Holdable(n.right.ep)
    ensures var m := After(n, steps); Holdable(m.left.ep) && Holdable(m.right.ep)
    decreases |steps|
  {
    if steps == [] {
    } else {
      var op := steps[0].op;
      var e := Side(n, steps[0].byLeft).ep;
      if Connected(op) {
        StepTransparent(e, op);
      }
      assert Holdable(React(e, op).next);
      RunHoldable(Take(n, steps[0]), steps[1..]);
    }
  }

  lemma Glued(w: seq<Frame>, ws: seq<Frame>, last: seq<Frame>, mid: seq<Frame>, us: seq<Frame>, first: seq<Frame>,
      u: seq<Frame>)
    requires ws + last == mid + us && w + mid == first + u
    ensures (w + ws) + last == first + (u + us)
  {
    assert (w + ws) + last == w + (ws + last);
    assert w + (mid + us) == (w + mid) + us;
  }

  // ---- how often replays are asked for -------------------------------------------------------

  /** Does this call ask the peer for a replay, at once or once a pause is over? */
  predicate Asks(e: Endpoint, op: Op) {
    op.Receive? && op.frame.ty == Regular && Empty(ReplayRequest, 0) in ReceiveStep(Twin(e), op.frame, op.now).out
  }

  /** The endpoint before the `n`-th call. */
  function EndpointAt(e: Endpoint, ops: seq<Op>, n: nat): Endpoint
    requires Callable(e, ops) && n <= |ops|
    decreases n
  {
    if n == 0 then e else EndpointAt(React(e, ops[0]).next, ops[1..], n - 1)
  }

  /** A call that asks remembers when; any other leaves what is remembered. */
  lemma AskRemembered(e: Endpoint, op: Op)
    requires Connected(op) && (op.Send? ==> e.outMsg < U32_MAX)
    ensures var last := React(e, op).next.lastReplayRequest;
            if Asks(e, op) then
              && last == Some(op.now)
              && (e.lastReplayRequest.None? || op.now - e.lastReplayRequest.value > REPLAY_REQUEST_INTERVAL)
            else last == e.lastReplayRequest
  {
    if op.Receive? {
      AsksWhenDue(e, op.frame, op.now);
      ReceiveRemembered(e, op.frame, op.now);
    }
  }

  /** When is a message so far ahead that its gap is asked for? */
  predicate Due(e: Endpoint, frame: Frame, now: Time) {
    && frame.ty == Regular && frame.id > e.inMsg + 1
    && (e.lastReplayRequest.None? || Since(now, e.lastReplayRequest.value) > REPLAY_REQUEST_INTERVAL)
  }

  lemma AsksWhenDue(e: Endpoint, frame: Frame, now: Time)
    ensures Asks(e, Receive(frame, now)) <==> Due(e, frame, now)
  {
    if frame.ty == Regular {
      assert ReceiveStep(Twin(e), frame, now).out == if Due(e, frame, now) then [Empty(ReplayRequest, 0)] else [];
    }
  }

  lemma ReceiveRemembered(e: Endpoint, frame: Frame, now: Time)
    ensures ReceiveStep(e, frame, now).next.lastReplayRequest
         == if Due(e, frame, now) then Some(now) else e.lastReplayRequest
  {
    var a := TakeAck(e, frame.ack, now);
    if frame.ty == Regular {
    } else if frame.ty == ReplayRequest {
      assert ReceiveStep(e, frame, now) == ReplayAll(a, now);
    } else {
      assert ReceiveStep(e, frame, now).next.lastReplayRequest == a.lastReplayRequest;
    }
  }

  lemma {:induction false} NextAskIsLate(e: Endpoint, ops: seq<Op>, since: Time, j: nat)
    requires Callable(e, ops) && j < |ops| && Asks(EndpointAt(e, ops, j), ops[j])
    requires e.lastReplayRequest.Some? && e.lastReplayRequest.value >= since
    ensures ops[j].now - since > REPLAY_REQUEST_INTERVAL
    decreases j
  {
    AskRemembered(e, ops[0]);
    if j == 0 {
    } else {
      NextAskIsLate(React(e, ops[0]).next, ops[1..], since, j - 1);
    }
  }

  /** Over any run of calls between two reconnects, whatever the clock does, two replay requests are more than ten
      seconds apart. */
  lemma {:induction false} ReplayRequestsSpaced(e: Endpoint, ops: seq<Op>, i: nat, j: nat)
    requires Callable(e, ops) && i < j < |ops|
    requires Asks(EndpointAt(e, ops, i), ops[i]) && Asks(EndpointAt(e, ops, j), ops[j])
    ensures ops[j].now - ops[i].now > REPLAY_REQUEST_INTERVAL
    decreases i
  {
    if i == 0 {
      AskRemembered(e, ops[0]);
      NextAskIsLate(React(e, ops[0]).next, ops[1..], ops[0].now, j - 1);
    } else {
      ReplayRequestsSpaced(React(e, ops[0]).next, ops[1..], i - 1, j - 1);
    }
  }
}
