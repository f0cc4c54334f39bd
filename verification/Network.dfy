/** Two endpoints over a network that may lose, duplicate, delay and reorder every frame. */
module Network {
  import opened Wrappers
  import opened Bytes
  import opened Frames
  import opened Protocol

  /** One endpoint with its history: every frame it ever wrote, every payload given to `Send`, every payload
      delivered, every payload given to `SendControl`, whether it said goodbye, and all it was told. */
  datatype Peer = Peer(
    ep: Endpoint,
    wire: set<Frame>,
    sent: seq<seq<byte>>,
    got: seq<seq<byte>>,
    controls: set<seq<byte>>,
    gone: bool,
    told: seq<Inbound>)

  datatype Net = Net(left: Peer, right: Peer)

  /** The public methods of the protocol; `Flow` is a pause, resume or filler frame put on the wire by the peer's
      host. */
  datatype Op =
    | Send(data: seq<byte>, now: Time)
    | SendControl(data: seq<byte>)
    | SendDisconnect
    | Receive(frame: Frame, now: Time)
    | Tick(now: Time)
    | SendKeepAlive
    | BeginReconnect(now: Time)
    | EndReconnect(now: Time)
    | Flow(ty: MessageType)

  datatype Step = Step(byLeft: bool, op: Op)

  predicate Enabled(me: Peer, other: Peer, op: Op) {
    match op
    case Send(_, _) => me.ep.outMsg < U32_MAX
    case Receive(frame, _) => frame in other.wire
    case Flow(ty) => ty in {MessageType.None, Pause, Resume}
    case _ => true
  }

  function React(e: Endpoint, op: Op): Reaction
    requires op.Send? ==> e.outMsg < U32_MAX
  {
    match op
    case Send(data, now) => SendStep(e, data, now)
    case SendControl(data) => SendControlStep(e, data)
    case SendDisconnect => SendDisconnectStep(e)
    case Receive(frame, now) => ReceiveStep(e, frame, now)
    case Tick(now) => TickStep(e, now)
    case SendKeepAlive => KeepAliveStep(e)
    case BeginReconnect(now) => BeginReconnectStep(e, now)
    case EndReconnect(now) => EndReconnectStep(e, now)
    case Flow(ty) => Reaction(e, [Empty(ty, 0)])
  }

  function Perform(me: Peer, op: Op): Peer
    requires op.Send? ==> me.ep.outMsg < U32_MAX
  {
    var r := React(me.ep, op);
    Peer(r.next,
         me.wire + (set f | f in r.out),
         if op.Send? then me.sent + [op.data] else me.sent,
         if r.inbound.Some? && r.inbound.value.Data? then me.got + [r.inbound.value.data] else me.got,
         if op.SendControl? then me.controls + {op.data} else me.controls,
         me.gone || op.SendDisconnect?,
         if r.inbound.Some? then me.told + [r.inbound.value] else me.told)
  }

  predicate StepEnabled(n: Net, s: Step) {
    if s.byLeft then Enabled(n.left, n.right, s.op) else Enabled(n.right, n.left, s.op)
  }

  function Take(n: Net, s: Step): Net
    requires StepEnabled(n, s)
  {
    if s.byLeft then n.(left := Perform(n.left, s.op)) else n.(right := Perform(n.right, s.op))
  }

  function Start(t0: Time, t1: Time): Net {
    Net(Begun(t0), Begun(t1))
  }

  function Begun(t: Time): Peer {
    Peer(Fresh(t), {}, [], [], {}, false, [])
  }

  /** `steps` is a run from `n`. */
  predicate Runs(n: Net, steps: seq<Step>)
    decreases |steps|
  {
    steps == [] || (StepEnabled(n, steps[0]) && Runs(Take(n, steps[0]), steps[1..]))
  }

  function After(n: Net, steps: seq<Step>): Net
    requires Runs(n, steps)
    decreases |steps|
  {
    if steps == [] then n else After(Take(n, steps[0]), steps[1..])
  }

  ghost predicate Reachable(n: Net) {
    exists t0: Time, t1: Time, steps :: Runs(Start(t0, t1), steps) && After(Start(t0, t1), steps) == n
  }

  // ---- the invariant -------------------------------------------------------------------------

  /** A frame `p` may write: it acknowledges no more than `p` has received, and a numbered frame carries the payload
      of that number. */
  predicate Honest(f: Frame, inAck: u32, sent: seq<seq<byte>>) {
    && f.ack <= inAck
    && (f.ty == Regular ==> 1 <= f.id <= |sent| && f.data == sent[f.id - 1])
  }

  /** The unacknowledged queue is exactly the messages after `outAck`, in order, as they were sent. */
  predicate QueueExact(e: Endpoint, sent: seq<seq<byte>>) {
    && |sent| == e.outMsg
    && e.outAck <= e.outMsg
    && |e.unacked| == e.outMsg - e.outAck
    && (forall i :: 0 <= i < |e.unacked| ==>
          var f := e.unacked[i].frame;
          f.ty == Regular && f.id == e.outAck + 1 + i && f.data == sent[e.outAck + i] && f.ack <= e.inAck)
  }

  predicate LocalInv(p: Peer) {
    && QueueExact(p.ep, p.sent)
    && p.ep.inAck <= p.ep.inMsg
    && (forall f :: f in p.wire ==> Honest(f, p.ep.inAck, p.sent))
    && (forall f :: f in p.ep.held ==> Honest(f, p.ep.inAck, p.sent))
  }

  /** What `from` has had acknowledged, what `to` has received, and what `from` has sent, in that order. */
  predicate LinkInv(from: Peer, to: Peer) {
    && from.ep.outAck <= to.ep.inAck
    && to.ep.inMsg <= |from.sent|
    && to.got == from.sent[..to.ep.inMsg]
  }

  predicate Inv(n: Net) {
    && LocalInv(n.left) && LocalInv(n.right)
    && LinkInv(n.left, n.right) && LinkInv(n.right, n.left)
  }

  // ---- each step keeps it --------------------------------------------------------------------

  lemma {:induction false} TrimExact(q: seq<Unacked>, first: nat, ack: u32)
    requires forall i :: 0 <= i < |q| ==> q[i].frame.id == first + i
    requires first <= ack + 1 <= first + |q|
    ensures TrimAcked(q, ack) == q[ack + 1 - first..]
  {
    if first <= ack {
      TrimExact(q[1..], first + 1, ack);
    }
  }

  lemma AckedExact(e: Endpoint, sent: seq<seq<byte>>, ack: u32, now: Time)
    requires QueueExact(e, sent) && e.outAck < ack <= e.outMsg
    ensures QueueExact(TakeAck(e, ack, now), sent)
  {
    TrimExact(e.unacked, e.outAck + 1, ack);
  }

  lemma TakeAckKeeps(me: Peer, other: Peer, ack: u32, now: Time)
    requires LocalInv(me) && LinkInv(me, other)
    requires ack <= other.ep.inAck <= other.ep.inMsg
    ensures var me' := me.(ep := TakeAck(me.ep, ack, now)); LocalInv(me') && LinkInv(me', other)
  {
    if ack > me.ep.outAck {
      AckedExact(me.ep, me.sent, ack, now);
    }
  }

  lemma EmitKeeps(me: Peer, fs: seq<Frame>)
    requires LocalInv(me)
    requires forall f :: f in fs ==> Honest(f, me.ep.inAck, me.sent)
    ensures var r := EmitAll(me.ep, fs); LocalInv(me.(ep := r.next, wire := me.wire + (set f | f in r.out)))
  {
  }

  lemma QueuedHonest(me: Peer)
    requires LocalInv(me)
    ensures forall f :: f in Queued(me.ep.unacked) ==> Honest(f, me.ep.inAck, me.sent)
  {
  }

  /** A message counted and queued, before its frame is written. */
  lemma QueuedKeeps(me: Peer, frame: Frame, stamp: Option<Time>, counted: Endpoint)
    requires LocalInv(me) && me.ep.outMsg < U32_MAX
    requires frame == Frame(Regular, me.ep.outMsg + 1, me.ep.inMsg, frame.data)
    requires counted == me.ep.(outMsg := me.ep.outMsg + 1, inAck := me.ep.inMsg,
        unacked := me.ep.unacked + [Unacked(frame, stamp)])
    ensures LocalInv(me.(ep := counted, sent := me.sent + [frame.data]))
    ensures Honest(frame, counted.inAck, me.sent + [frame.data])
  {
  }

  /** What one end has received stays a prefix of what the other sent when that grows. */
  lemma SentGrows(from: Peer, to: Peer, data: seq<byte>, ep: Endpoint, wire: set<Frame>)
    requires LinkInv(from, to) && LinkInv(to, from)
    requires ep.outAck == from.ep.outAck && ep.inMsg == from.ep.inMsg && ep.inAck >= from.ep.inAck
    ensures var from' := from.(ep := ep, wire := wire, sent := from.sent + [data]);
        LinkInv(from', to) && LinkInv(to, from')
  {
    assert to.got == (from.sent + [data])[..to.ep.inMsg];
  }

  lemma SendKeeps(me: Peer, other: Peer, data: seq<byte>, now: Time)
    requires LocalInv(me) && LinkInv(me, other) && LinkInv(other, me) && me.ep.outMsg < U32_MAX
    ensures var me' := Perform(me, Send(data, now)); LocalInv(me') && LinkInv(me', other) && LinkInv(other, me')
  {
    var frame := Frame(Regular, me.ep.outMsg + 1, me.ep.inMsg, data);
    var stamp := if me.ep.reconnecting then Option.None else Some(now);
    var counted := me.ep.(outMsg := me.ep.outMsg + 1, inAck := me.ep.inMsg,
                          unacked := me.ep.unacked + [Unacked(frame, stamp)]);
    var mid := me.(ep := counted, sent := me.sent + [data]);
    QueuedKeeps(me, frame, stamp, counted);
    EmitKeeps(mid, [frame]);
    var me' := Perform(me, Send(data, now));
    SentGrows(me, other, data, me'.ep, me'.wire);
  }

  /** A message sent gets the next number and waits for its acknowledgement; unless reconnecting, it is written or
      held back by a pause. */
  lemma SendWrites(me: Peer, data: seq<byte>, now: Time)
    requires LocalInv(me) && me.ep.outMsg < U32_MAX
    ensures var me' := Perform(me, Send(data, now));
            var frame := Frame(Regular, |me.sent| + 1, me.ep.inMsg, data);
            && me'.sent == me.sent + [data]
            && me'.ep.unacked
                 == me.ep.unacked + [Unacked(frame, if me.ep.reconnecting then Option.None else Some(now))]
            && (!me.ep.reconnecting ==> if me.ep.paused then frame in me'.ep.held else frame in me'.wire)
  {
  }

  lemma ReplayKeeps(me: Peer, other: Peer, now: Time)
    requires LocalInv(me) && LinkInv(me, other) && LinkInv(other, me)
    ensures var r := ReplayAll(me.ep, now);
            var me' := me.(ep := r.next, wire := me.wire + (set f | f in r.out));
            LocalInv(me') && LinkInv(me', other) && LinkInv(other, me')
  {
    var mid := me.(ep := me.ep.(unacked := Stamped(me.ep.unacked, now)));
    QueuedHonest(me);
    assert LocalInv(mid);
    EmitKeeps(mid, Queued(me.ep.unacked));
  }

  /** The next message in order, taken in. */
  lemma NextKeeps(me: Peer, other: Peer, frame: Frame, ep: Endpoint)
    requires LocalInv(me) && LinkInv(me, other) && LinkInv(other, me)
    requires frame.ty == Regular && Honest(frame, other.ep.inAck, other.sent) && frame.id == me.ep.inMsg + 1
    requires ep == me.ep.(inMsg := frame.id, lastIncomingRegular := ep.lastIncomingRegular)
    ensures var me' := me.(ep := ep, got := me.got + [frame.data]);
        LocalInv(me') && LinkInv(me', other) && LinkInv(other, me')
  {
    assert other.sent[..frame.id] == other.sent[..me.ep.inMsg] + [frame.data];
  }

  /** A message out of order, answered with a request for a replay. */
  lemma AskReplayKeeps(me: Peer, other: Peer, now: Time)
    requires LocalInv(me) && LinkInv(me, other) && LinkInv(other, me)
    ensures var r := EmitAll(me.ep.(lastReplayRequest := Some(now)), [Empty(ReplayRequest, 0)]);
            var me' := me.(ep := r.next, wire := me.wire + (set f | f in r.out));
            LocalInv(me') && LinkInv(me', other) && LinkInv(other, me')
  {
    EmitKeeps(me.(ep := me.ep.(lastReplayRequest := Some(now))), [Empty(ReplayRequest, 0)]);
  }

  lemma RegularKeeps(me: Peer, other: Peer, frame: Frame, now: Time)
    requires LocalInv(me) && LinkInv(me, other) && LinkInv(other, me)
    requires frame.ty == Regular && Honest(frame, other.ep.inAck, other.sent)
    requires frame.ack <= me.ep.outAck
    ensures var me' := Perform(me, Receive(frame, now)); LocalInv(me') && LinkInv(me', other) && LinkInv(other, me')
  {
    var mid := me.(ep := me.ep.(lastRead := now));
    assert LocalInv(mid);
    if frame.id == me.ep.inMsg + 1 {
      NextKeeps(mid, other, frame, mid.ep.(inMsg := frame.id, lastIncomingRegular := Some(now)));
    } else if frame.id > me.ep.inMsg {
      AskReplayKeeps(mid, other, now);
      assert ReceiveStep(me.ep, frame, now) == Reaction(mid.ep, [])
          || ReceiveStep(me.ep, frame, now)
               == EmitAll(mid.ep.(lastReplayRequest := Some(now)), [Empty(ReplayRequest, 0)]);
    }
  }

  lemma ReceiveKeeps(me: Peer, other: Peer, frame: Frame, now: Time)
    requires LocalInv(me) && LocalInv(other) && LinkInv(me, other) && LinkInv(other, me)
    requires frame in other.wire
    ensures var me' := Perform(me, Receive(frame, now)); LocalInv(me') && LinkInv(me', other) && LinkInv(other, me')
  {
    TakeAckKeeps(me, other, frame.ack, now);
    var mid := me.(ep := TakeAck(me.ep, frame.ack, now));
    assert LinkInv(other, mid);
    // The rest of the reception sees a frame whose acknowledgement has already been taken.
    assert ReceiveStep(me.ep, frame, now) == ReceiveStep(mid.ep, frame, now);
    AfterAckKeeps(mid, other, frame, now);
  }

  lemma AfterAckKeeps(me: Peer, other: Peer, frame: Frame, now: Time)
    requires LocalInv(me) && LinkInv(me, other) && LinkInv(other, me)
    requires Honest(frame, other.ep.inAck, other.sent) && frame.ack <= me.ep.outAck
    ensures var me' := Perform(me, Receive(frame, now)); LocalInv(me') && LinkInv(me', other) && LinkInv(other, me')
  {
    if frame.ty == Regular {
      RegularKeeps(me, other, frame, now);
    } else if frame.ty == ReplayRequest {
      var mid := me.(ep := me.ep.(lastRead := now));
      assert LocalInv(mid);
      ReplayKeeps(mid, other, now);
      assert ReceiveStep(me.ep, frame, now) == ReplayAll(mid.ep, now);
    } else {
      OthersKeep(me, other, frame, now);
    }
  }

  lemma OthersKeep(me: Peer, other: Peer, frame: Frame, now: Time)
    requires LocalInv(me) && LinkInv(me, other) && LinkInv(other, me)
    requires frame.ty != Regular && frame.ty != ReplayRequest && frame.ack <= me.ep.outAck
    ensures var me' := Perform(me, Receive(frame, now)); LocalInv(me') && LinkInv(me', other) && LinkInv(other, me')
  {
  }

  lemma StampedKeeps(me: Peer, e: Endpoint, now: Time)
    requires LocalInv(me)
    requires e == me.ep.(reconnecting := false, inAck := me.ep.inMsg, unacked := Stamped(me.ep.unacked, now))
    ensures LocalInv(me.(ep := e)) && Queued(e.unacked) == Queued(me.ep.unacked)
  {
  }

  lemma EndReconnectKeeps(me: Peer, other: Peer, now: Time)
    requires LocalInv(me) && LinkInv(me, other) && LinkInv(other, me)
    ensures var me' := Perform(me, EndReconnect(now)); LocalInv(me') && LinkInv(me', other) && LinkInv(other, me')
  {
    var mid := me.(ep := me.ep.(reconnecting := false, inAck := me.ep.inMsg, unacked := Stamped(me.ep.unacked, now)));
    StampedKeeps(me, mid.ep, now);
    QueuedHonest(mid);
    EmitKeeps(mid, [Empty(Ack, me.ep.inMsg)] + Queued(me.ep.unacked));
  }

  /** Acknowledging everything received, in one empty frame. */
  lemma AckKeeps(me: Peer, other: Peer, ty: MessageType)
    requires LocalInv(me) && LinkInv(me, other) && LinkInv(other, me) && ty != Regular
    ensures var r := EmitAll(me.ep.(inAck := me.ep.inMsg), [Empty(ty, me.ep.inMsg)]);
            var me' := me.(ep := r.next, wire := me.wire + (set f | f in r.out));
            LocalInv(me') && LinkInv(me', other) && LinkInv(other, me')
  {
    var mid := me.(ep := me.ep.(inAck := me.ep.inMsg));
    assert LocalInv(mid);
    EmitKeeps(mid, [Empty(ty, me.ep.inMsg)]);
  }

  /** A tick acknowledges everything received, or leaves counters, queue and held frames as they are. */
  lemma TickIs(e: Endpoint, now: Time)
    ensures var r := TickStep(e, now);
            || (r.out == [] && r.next == e.(lastTimeout := r.next.lastTimeout))
            || (var a := EmitAll(e.(inAck := e.inMsg), [Empty(Ack, e.inMsg)]);
                r.out == a.out && r.next == a.next.(lastTimeout := r.next.lastTimeout))
  {
  }

  lemma TickKeeps(me: Peer, other: Peer, now: Time)
    requires LocalInv(me) && LinkInv(me, other) && LinkInv(other, me)
    ensures var me' := Perform(me, Tick(now)); LocalInv(me') && LinkInv(me', other) && LinkInv(other, me')
  {
    TickIs(me.ep, now);
    AckKeeps(me, other, Ack);
  }

  lemma UnnumberedKeeps(me: Peer, other: Peer, op: Op)
    requires LocalInv(me) && LinkInv(me, other) && LinkInv(other, me)
    requires op.SendControl? || op.SendDisconnect? || op.BeginReconnect? || (op.Flow? && op.ty != Regular)
    ensures var me' := Perform(me, op); LocalInv(me') && LinkInv(me', other) && LinkInv(other, me')
  {
    if op.SendControl? {
      EmitKeeps(me, [Frame(Control, 0, 0, op.data)]);
    }
  }

  lemma PerformKeeps(me: Peer, other: Peer, op: Op)
    requires LocalInv(me) && LocalInv(other) && LinkInv(me, other) && LinkInv(other, me)
    requires Enabled(me, other, op)
    ensures var me' := Perform(me, op); LocalInv(me') && LinkInv(me', other) && LinkInv(other, me')
  {
    match op {
      case Send(data, now) => SendKeeps(me, other, data, now);
      case Receive(frame, now) => ReceiveKeeps(me, other, frame, now);
      case Tick(now) => TickKeeps(me, other, now);
      case SendKeepAlive => AckKeeps(me, other, KeepAlive);
      case EndReconnect(now) => EndReconnectKeeps(me, other, now);
      case _ => UnnumberedKeeps(me, other, op);
    }
  }

  lemma StepKeeps(n: Net, s: Step)
    requires Inv(n) && StepEnabled(n, s)
    ensures Inv(Take(n, s))
  {
    if s.byLeft {
      PerformKeeps(n.left, n.right, s.op);
    } else {
      PerformKeeps(n.right, n.left, s.op);
    }
  }

  lemma {:induction false} RunKeeps(n: Net, steps: seq<Step>)
    requires Inv(n) && Runs(n, steps)
    ensures Inv(After(n, steps))
    decreases |steps|
  {
    if steps == [] {
    } else {
      StepKeeps(n, steps[0]);
      RunKeeps(Take(n, steps[0]), steps[1..]);
    }
  }

  lemma ReachableInv(n: Net)
    requires Reachable(n)
    ensures Inv(n)
  {
    var t0: Time, t1: Time, steps :| Runs(Start(t0, t1), steps) && After(Start(t0, t1), steps) == n;
    RunKeeps(Start(t0, t1), steps);
  }

  // ---- what it means -------------------------------------------------------------------------

  /** Exactly once and in order: whatever the network did, each end has been given a prefix of what the other sent. */
  lemma ExactlyOnceInOrder(n: Net)
    requires Reachable(n)
    ensures n.right.got <= n.left.sent
    ensures n.left.got <= n.right.sent
  {
    ReachableInv(n);
  }

  function Side(n: Net, left: bool): Peer {
    if left then n.left else n.right
  }

  /** Nothing undelivered is forgotten: the queue holds exactly the unacknowledged messages with their own payloads,
      and the counters are ordered. */
  lemma NothingForgotten(n: Net, left: bool)
    requires Reachable(n)
    ensures var e, peer := Side(n, left).ep, Side(n, !left);
            && e.outAck <= peer.ep.inMsg <= e.outMsg == |Side(n, left).sent|
            && e.inAck <= e.inMsg
            && |peer.got| == peer.ep.inMsg
            && |e.unacked| == e.outMsg - e.outAck
            && forall i :: 0 <= i < |e.unacked| ==>
                 var f := e.unacked[i].frame;
                 f.ty == Regular && f.id == e.outAck + 1 + i && f.data == Side(n, left).sent[f.id - 1]
  {
    ReachableInv(n);
  }
}
