/** What an endpoint tells the layer above, and when it gives a connection up
    (`ember/editor-conn/src/protocol.rs`). */
module Answers {
  import opened Wrappers
  import opened Bytes
  import opened Frames
  import opened Protocol
  import opened Network
  import Recovery

  // ---- only what the other end said ----------------------------------------------------------

  /** A frame `p` may write: a control frame carries a payload given to `SendControl`, and a disconnect frame is
      written only after `SendDisconnect`. */
  predicate Said(f: Frame, p: Peer) {
    && (f.ty == Control ==> f.data in p.controls)
    && (f.ty == Disconnect ==> p.gone)
  }

  ghost predicate SaysOnly(p: Peer) {
    && (forall f :: f in p.wire ==> Said(f, p))
    && (forall f :: f in p.ep.held ==> Said(f, p))
    && OnlyRegular(p.ep.unacked)
  }

  ghost predicate OnlyRegular(q: seq<Unacked>) {
    forall u :: u in q ==> u.frame.ty == Regular
  }

  /** `x` was said by `from`. */
  predicate SaidBy(x: Inbound, from: Peer) {
    match x
    case Data(data) => data in from.sent
    case ControlData(data) => data in from.controls
    case Disconnected => from.gone
  }

  /** The payloads of the numbered messages among what was told. */
  function DataOf(told: seq<Inbound>): seq<seq<byte>> {
    if told == [] then []
    else
      var n := |told| - 1;
      DataOf(told[..n]) + if told[n].Data? then [told[n].data] else []
  }

  /** Control messages and goodbyes told were said by `from`, and the rest is what was delivered. */
  ghost predicate ToldOnly(from: Peer, to: Peer) {
    && (forall x :: x in to.told && !x.Data? ==> SaidBy(x, from))
    && DataOf(to.told) == to.got
  }

  ghost predicate Truthful(n: Net) {
    SaysOnly(n.left) && SaysOnly(n.right) && ToldOnly(n.left, n.right) && ToldOnly(n.right, n.left)
  }

  lemma {:induction false} TrimmedRegular(q: seq<Unacked>, ack: u32)
    requires OnlyRegular(q)
    ensures OnlyRegular(TrimAcked(q, ack))
  {
    if q == [] || q[0].frame.id > ack {
    } else {
      TrimmedRegular(q[1..], ack);
    }
  }

  /** Frames no different from those of `e`, but for those the call itself puts there. */
  ghost predicate Known(e: Endpoint, op: Op, f: Frame) {
    || f in e.held
    || (f.ty != Control && f.ty != Disconnect)
    || (op.SendControl? && f == Frame(Control, 0, 0, op.data))
    || (op.SendDisconnect? && f == Empty(Disconnect, 0))
  }

  /** Every frame written, held or queued is known. */
  ghost predicate AllKnown(e: Endpoint, op: Op, r: Reaction) {
    && (forall f :: f in r.out ==> Known(e, op, f))
    && (forall f :: f in r.next.held ==> Known(e, op, f))
    && (forall u :: u in r.next.unacked ==> u.frame.ty == Regular)
  }

  lemma EmitKnown(e: Endpoint, op: Op, e': Endpoint, fs: seq<Frame>)
    requires e'.held == e.held && OnlyRegular(e'.unacked) && forall f :: f in fs ==> Known(e, op, f)
    ensures AllKnown(e, op, EmitAll(e', fs))
  {
  }

  lemma QueuedRegular(q: seq<Unacked>, now: Time)
    requires OnlyRegular(q)
    ensures forall f :: f in Queued(q) ==> f.ty == Regular
    ensures OnlyRegular(Stamped(q, now))
  {
  }

  lemma ReplayKnown(e: Endpoint, op: Op, e': Endpoint, now: Time)
    requires e'.held == e.held && OnlyRegular(e'.unacked)
    ensures AllKnown(e, op, ReplayAll(e', now))
  {
    QueuedRegular(e'.unacked, now);
    EmitKnown(e, op, e'.(unacked := Stamped(e'.unacked, now)), Queued(e'.unacked));
  }

  lemma ReceiveKnown(e: Endpoint, frame: Frame, now: Time)
    requires OnlyRegular(e.unacked)
    ensures AllKnown(e, Receive(frame, now), ReceiveStep(e, frame, now))
  {
    var op, a := Receive(frame, now), TakeAck(e, frame.ack, now);
    TrimmedRegular(e.unacked, frame.ack);
    ReplayKnown(e, op, a, now);
    EmitKnown(e, op, a.(lastReplayRequest := Some(now)), [Empty(ReplayRequest, 0)]);
    if frame.ty != Regular && frame.ty != ReplayRequest {
      QuietKnown(e, frame, now);
    }
  }

  lemma QuietKnown(e: Endpoint, frame: Frame, now: Time)
    requires OnlyRegular(TakeAck(e, frame.ack, now).unacked) && frame.ty != Regular && frame.ty != ReplayRequest
    ensures AllKnown(e, Receive(frame, now), ReceiveStep(e, frame, now))
  {
  }

  lemma EndReconnectKnown(e: Endpoint, now: Time)
    requires OnlyRegular(e.unacked)
    ensures AllKnown(e, EndReconnect(now), EndReconnectStep(e, now))
  {
    QueuedRegular(e.unacked, now);
    EmitKnown(e, EndReconnect(now),
        e.(reconnecting := false, inAck := e.inMsg, unacked := Stamped(e.unacked, now)),
        [Empty(Ack, e.inMsg)] + Queued(e.unacked));
  }

  lemma SendKnown(e: Endpoint, data: seq<byte>, now: Time)
    requires OnlyRegular(e.unacked) && e.outMsg < U32_MAX
    ensures AllKnown(e, Send(data, now), SendStep(e, data, now))
  {
    var op, frame := Send(data, now), Frame(Regular, e.outMsg + 1, e.inMsg, data);
    var stamp := if e.reconnecting then Option.None else Some(now);
    EmitKnown(e, op, e.(outMsg := e.outMsg + 1, inAck := e.inMsg, unacked := e.unacked + [Unacked(frame, stamp)]),
        [frame]);
  }

  lemma TickKnown(e: Endpoint, now: Time)
    requires OnlyRegular(e.unacked)
    ensures AllKnown(e, Tick(now), TickStep(e, now))
  {
    EmitKnown(e, Tick(now), e.(inAck := e.inMsg), [Empty(Ack, e.inMsg)]);
  }

  lemma OthersKnown(e: Endpoint, op: Op)
    requires OnlyRegular(e.unacked)
    requires op.SendControl? || op.SendDisconnect? || op.SendKeepAlive? || op.BeginReconnect? || op.Flow?
    requires op.Flow? ==> op.ty != Control && op.ty != Disconnect
    ensures AllKnown(e, op, React(e, op))
  {
  }

  lemma ReactKnown(e: Endpoint, op: Op)
    requires OnlyRegular(e.unacked) && (op.Send? ==> e.outMsg < U32_MAX)
    requires op.Flow? ==> op.ty != Control && op.ty != Disconnect
    ensures AllKnown(e, op, React(e, op))
  {
    match op {
      case Send(data, now) => SendKnown(e, data, now);
      case Tick(now) => TickKnown(e, now);
      case Receive(frame, now) => ReceiveKnown(e, frame, now);
      case EndReconnect(now) => EndReconnectKnown(e, now);
      case _ => OthersKnown(e, op);
    }
  }

  /** What a call writes or holds, and what it keeps queued, is what its end may write. */
  lemma PerformSays(p: Peer, op: Op)
    requires SaysOnly(p) && (op.Send? ==> p.ep.outMsg < U32_MAX)
    requires op.Flow? ==> op.ty != Control && op.ty != Disconnect
    ensures SaysOnly(Perform(p, op))
  {
    ReactKnown(p.ep, op);
    var q := Perform(p, op);
    forall f | Known(p.ep, op, f)
      ensures Said(f, q)
    {
      assert f in p.ep.held ==> Said(f, p);
    }
    forall f | f in q.wire
      ensures Said(f, q)
    {
      assert f in p.wire ==> Said(f, p);
    }
  }

  lemma DataOfMore(told: seq<Inbound>, x: Inbound)
    ensures DataOf(told + [x]) == DataOf(told) + if x.Data? then [x.data] else []
  {
    assert (told + [x])[..|told|] == told;
  }

  lemma {:induction false} DataIn(told: seq<Inbound>, x: Inbound)
    requires x in told && x.Data?
    ensures x.data in DataOf(told)
  {
    var n := |told| - 1;
    if told[n] == x {
    } else {
      assert x in told[..n];
      DataIn(told[..n], x);
    }
  }

  /** A frame tells nothing its writer did not say, or the next numbered message. */
  lemma FrameTells(e: Endpoint, frame: Frame, now: Time, from: Peer)
    requires Said(frame, from)
    ensures var x := ReceiveStep(e, frame, now).inbound; x.Some? && !x.value.Data? ==> SaidBy(x.value, from)
  {
  }

  lemma PerformTells(from: Peer, to: Peer, op: Op)
    requires SaysOnly(from) && ToldOnly(from, to) && Enabled(to, from, op)
    ensures ToldOnly(from, Perform(to, op))
  {
    if op.Receive? {
      FrameTells(to.ep, op.frame, op.now, from);
      ToldOneMore(from, to, ReceiveStep(to.ep, op.frame, op.now).inbound, Perform(to, op));
    } else {
      OnlyReceiveTells(to.ep, op);
    }
  }

  lemma OnlyReceiveTells(e: Endpoint, op: Op)
    requires !op.Receive? && (op.Send? ==> e.outMsg < U32_MAX)
    ensures React(e, op).inbound.None?
  {
  }

  lemma ToldOneMore(from: Peer, to: Peer, x: Option<Inbound>, to': Peer)
    requires ToldOnly(from, to) && (x.Some? && !x.value.Data? ==> SaidBy(x.value, from))
    requires to'.told == if x.Some? then to.told + [x.value] else to.told
    requires to'.got == if x.Some? && x.value.Data? then to.got + [x.value.data] else to.got
    ensures ToldOnly(from, to')
  {
    if x.Some? {
      DataOfMore(to.told, x.value);
    }
  }

  /** Whoever says more has still said all that was told. */
  lemma SaidMore(from: Peer, to: Peer, op: Op)
    requires ToldOnly(from, to) && (op.Send? ==> from.ep.outMsg < U32_MAX)
    ensures ToldOnly(Perform(from, op), to)
  {
  }

  lemma StepTruthful(n: Net, s: Step)
    requires Truthful(n) && StepEnabled(n, s)
    ensures Truthful(Take(n, s))
  {
    var me, other := Side(n, s.byLeft), Side(n, !s.byLeft);
    PerformSays(me, s.op);
    PerformTells(other, me, s.op);
    SaidMore(me, other, s.op);
  }

  lemma {:induction false} RunTruthful(n: Net, steps: seq<Step>)
    requires Truthful(n) && Runs(n, steps)
    ensures Truthful(After(n, steps))
    decreases |steps|
  {
    if steps == [] {
    } else {
      StepTruthful(n, steps[0]);
      RunTruthful(Take(n, steps[0]), steps[1..]);
    }
  }

  /** Whatever the network did, an end is told only what the other said: its messages, exactly those delivered, a
      control message it was given to send, and a goodbye only if it said goodbye. */
  lemma ToldWhatWasSaid(n: Net, left: bool)
    requires Reachable(n)
    ensures var to, from := Side(n, left), Side(n, !left);
            && (forall x :: x in to.told ==> SaidBy(x, from))
            && DataOf(to.told) == to.got
  {
    var t0: Time, t1: Time, steps :| Runs(Start(t0, t1), steps) && After(Start(t0, t1), steps) == n;
    RunTruthful(Start(t0, t1), steps);
    ExactlyOnceInOrder(n);
    var to, from := Side(n, left), Side(n, !left);
    forall x | x in to.told && x.Data?
      ensures x.data in from.sent
    {
      DataIn(to.told, x);
    }
  }

  // ---- all the other end said ----------------------------------------------------------------

  /** A control frame tells its payload, a disconnect frame the end, and a numbered frame its message if it is the
      next. No other frame tells anything. */
  lemma TellsExactly(e: Endpoint, frame: Frame, now: Time, x: Inbound)
    ensures ReceiveStep(e, frame, now).inbound == Some(x)
       <==> match x
            case Data(data) => frame.ty == Regular && frame.id == e.inMsg + 1 && frame.data == data
            case ControlData(data) => frame.ty == Control && frame.data == data
            case Disconnected => frame.ty == Disconnect
  {
  }

  /** A control message sent while not paused is one frame that tells any receiver exactly that message and changes
      nothing but when it last read. */
  lemma ControlArrives(a: Endpoint, b: Endpoint, data: seq<byte>, now: Time)
    requires !a.paused
    ensures var r := SendControlStep(a, data);
            r.next == a && |r.out| == 1
            && ReceiveStep(b, r.out[0], now) == Reaction(b.(lastRead := now), [], Some(ControlData(data)))
  {
  }

  /** A goodbye is one frame, written even past a pause, that tells any receiver that the connection is over; saying
      it again writes nothing. */
  lemma GoodbyeArrives(a: Endpoint, b: Endpoint, now: Time)
    requires !a.didSendDisconnect
    ensures var r := SendDisconnectStep(a);
            && |r.out| == 1 && SendDisconnectStep(r.next) == Reaction(r.next, [])
            && ReceiveStep(b, r.out[0], now) == Reaction(b.(lastRead := now), [], Some(Disconnected))
  {
  }

  // ---- when to acknowledge, and when to give up ----------------------------------------------

  /** An endpoint created at `t0`, after a life of calls; a send beyond the last message number is not made. */
  function Lived(t0: Time, ops: seq<Op>): Endpoint {
    if ops == [] then Fresh(t0)
    else
      var e, op := Lived(t0, ops[..|ops| - 1]), ops[|ops| - 1];
      if Made(e, op) then React(e, op).next else e
  }

  predicate Made(e: Endpoint, op: Op) {
    op.Send? ==> e.outMsg < U32_MAX
  }

  /** When something was last heard: a frame, or a new transport. */
  function LastHeard(t0: Time, ops: seq<Op>): Time {
    if ops == [] then t0
    else
      match ops[|ops| - 1]
      case Receive(_, now) => now
      case BeginReconnect(now) => now
      case _ => LastHeard(t0, ops[..|ops| - 1])
  }

  /** Has a reconnect begun and not ended? */
  predicate Away(ops: seq<Op>) {
    ops != []
    && match ops[|ops| - 1]
       case BeginReconnect(_) => true
       case EndReconnect(_) => false
       case _ => Away(ops[..|ops| - 1])
  }

  /** Is a tick now a timeout? Nothing heard for twenty seconds, and none in them that the last tick blamed. */
  predicate Silent(t0: Time, ops: seq<Op>, now: Time)
    decreases ops, 1
  {
    && !Away(ops)
    && now - LastHeard(t0, ops) >= TIMEOUT_TIME && now - LastBlamed(t0, ops) >= TIMEOUT_TIME
  }

  /** When the connection was last found silent, or began anew. */
  function LastBlamed(t0: Time, ops: seq<Op>): Time
    decreases ops, 0
  {
    if ops == [] then t0
    else
      var before := ops[..|ops| - 1];
      match ops[|ops| - 1]
      case BeginReconnect(now) => now
      case Tick(now) => if Silent(t0, before, now) then now else LastBlamed(t0, before)
      case _ => LastBlamed(t0, before)
  }

  ghost predicate Clocked(t0: Time, ops: seq<Op>) {
    var e := Lived(t0, ops);
    e.lastRead == LastHeard(t0, ops) && e.reconnecting == Away(ops) && e.lastTimeout == LastBlamed(t0, ops)
  }

  lemma {:induction false} ClocksAgree(t0: Time, ops: seq<Op>)
    ensures Clocked(t0, ops)
  {
    if ops == [] {
    } else {
      var n := |ops| - 1;
      ClocksAgree(t0, ops[..n]);
      ClockStep(t0, ops[..n], ops[n]);
      assert ops[..n] + [ops[n]] == ops;
    }
  }

  lemma ClockStep(t0: Time, ops: seq<Op>, op: Op)
    requires Clocked(t0, ops)
    ensures Clocked(t0, ops + [op])
  {
    assert (ops + [op])[..|ops|] == ops;
    var e := Lived(t0, ops);
    match op {
      case Receive(frame, now) => ReceiveClocks(e, frame, now);
      case _ =>
    }
  }

  lemma ReceiveClocks(e: Endpoint, frame: Frame, now: Time)
    ensures var r := ReceiveStep(e, frame, now).next;
            r.lastRead == now && r.reconnecting == e.reconnecting && r.lastTimeout == e.lastTimeout
  {
    if frame.ty == ReplayRequest {
      assert ReceiveStep(e, frame, now) == ReplayAll(TakeAck(e, frame.ack, now), now);
    }
  }

  /** Over any life, a tick gives the connection up exactly when it is not reconnecting, nothing was heard for twenty
      seconds, and twenty seconds passed since it last was given up. */
  lemma GivenUpExactly(t0: Time, ops: seq<Op>, now: Time)
    ensures TickStep(Lived(t0, ops), now).dead <==> Silent(t0, ops, now)
  {
    ClocksAgree(t0, ops);
  }

  /** Does this call deliver a message? */
  predicate Delivers(e: Endpoint, op: Op) {
    op.Receive? && op.frame.ty == Regular && op.frame.id == e.inMsg + 1
  }

  /** When a message was last delivered. */
  function LastDelivered(t0: Time, ops: seq<Op>): Option<Time> {
    if ops == [] then Option.None
    else
      var before, op := ops[..|ops| - 1], ops[|ops| - 1];
      if Delivers(Lived(t0, before), op) then Some(op.now) else LastDelivered(t0, before)
  }

  /** Was a message delivered since the last frame that acknowledged all of them? */
  predicate Owes(t0: Time, ops: seq<Op>)
    decreases ops, 0
  {
    ops != []
    && var before, op := ops[..|ops| - 1], ops[|ops| - 1];
       match op
       case Receive(_, _) => Delivers(Lived(t0, before), op) || Owes(t0, before)
       case Send(_, _) => !Made(Lived(t0, before), op) && Owes(t0, before)
       case SendKeepAlive => false
       case EndReconnect(_) => false
       case Tick(now) => Owes(t0, before) && !Due(t0, before, now)
       case _ => Owes(t0, before)
  }

  /** Is an acknowledgement owed, and two seconds old what it would acknowledge? */
  predicate Due(t0: Time, ops: seq<Op>, now: Time)
    decreases ops, 1
  {
    && Owes(t0, ops)
    && LastDelivered(t0, ops).Some? && now - LastDelivered(t0, ops).value >= ACKNOWLEDGE_TIME
  }

  ghost predicate Owing(t0: Time, ops: seq<Op>) {
    var e := Lived(t0, ops);
    && e.inAck <= e.inMsg && (e.inAck < e.inMsg <==> Owes(t0, ops))
    && e.lastIncomingRegular == LastDelivered(t0, ops)
  }

  lemma {:induction false} DebtsAgree(t0: Time, ops: seq<Op>)
    ensures Owing(t0, ops)
  {
    if ops == [] {
    } else {
      var n := |ops| - 1;
      DebtsAgree(t0, ops[..n]);
      DebtStep(t0, ops[..n], ops[n]);
      assert ops[..n] + [ops[n]] == ops;
    }
  }

  lemma DebtStep(t0: Time, ops: seq<Op>, op: Op)
    requires Owing(t0, ops)
    ensures Owing(t0, ops + [op])
  {
    assert (ops + [op])[..|ops|] == ops;
    var e := Lived(t0, ops);
    if op.Receive? {
      ReceiveDebt(e, op.frame, op.now);
    }
  }

  lemma ReceiveDebt(e: Endpoint, frame: Frame, now: Time)
    ensures var r := ReceiveStep(e, frame, now).next;
            && r.inAck == e.inAck
            && if Delivers(e, Receive(frame, now)) then r.inMsg == e.inMsg + 1 && r.lastIncomingRegular == Some(now)
               else r.inMsg == e.inMsg && r.lastIncomingRegular == e.lastIncomingRegular
  {
    if frame.ty == ReplayRequest {
      assert ReceiveStep(e, frame, now) == ReplayAll(TakeAck(e, frame.ack, now), now);
    }
  }

  /** Over any life, a tick acknowledges all that was delivered exactly when some of it is not yet acknowledged and
      the last of it came two seconds ago; a pause holds the acknowledgement back. */
  lemma AcknowledgedExactly(t0: Time, ops: seq<Op>, now: Time)
    ensures var e := Lived(t0, ops); var r := TickStep(e, now);
            var ack := if Due(t0, ops, now) then [Empty(Ack, e.inMsg)] else [];
            if e.paused then r.out == [] && r.next.held == e.held + ack else r.out == ack && r.next.held == e.held
  {
    DebtsAgree(t0, ops);
  }

  /** A keep-alive acknowledges all that was delivered. */
  lemma KeepAliveAcknowledges(e: Endpoint)
    requires !e.paused
    ensures KeepAliveStep(e) == Reaction(e.(inAck := e.inMsg), [Frame(KeepAlive, 0, e.inMsg, [])])
  {
  }

  // ---- when to be quiet ----------------------------------------------------------------------

  /** Has the other end asked for a pause, and neither resumed nor been left for a new transport? */
  predicate Hushed(ops: seq<Op>) {
    ops != []
    && match ops[|ops| - 1]
       case Receive(frame, _) => frame.ty == Pause || (frame.ty != Resume && Hushed(ops[..|ops| - 1]))
       case BeginReconnect(_) => false
       case _ => Hushed(ops[..|ops| - 1])
  }

  lemma {:induction false} HushedExactly(t0: Time, ops: seq<Op>)
    ensures Lived(t0, ops).paused == Hushed(ops)
  {
    if ops == [] {
    } else {
      var n := |ops| - 1;
      HushedExactly(t0, ops[..n]);
      if Made(Lived(t0, ops[..n]), ops[n]) {
        PauseStep(Lived(t0, ops[..n]), ops[n]);
      }
    }
  }

  lemma PauseStep(e: Endpoint, op: Op)
    requires Made(e, op)
    ensures React(e, op).next.paused == match op
            case Receive(frame, _) => frame.ty == Pause || (frame.ty != Resume && e.paused)
            case BeginReconnect(_) => false
            case _ => e.paused
  {
    if op.Receive? && op.frame.ty == ReplayRequest {
      assert ReceiveStep(e, op.frame, op.now) == ReplayAll(TakeAck(e, op.frame.ack, op.now), op.now);
    }
  }

  /** Over any life, from a pause to its end nothing is written but a goodbye. */
  lemma QuietWhileHushed(t0: Time, ops: seq<Op>, op: Op)
    requires Hushed(ops) && Made(Lived(t0, ops), op)
    requires !op.Flow? && !(op.Receive? && op.frame.ty == Resume)
    ensures forall f :: f in React(Lived(t0, ops), op).out ==> f.ty == Disconnect
  {
    HushedExactly(t0, ops);
    NothingOut(Lived(t0, ops), op);
  }

  lemma NothingOut(e: Endpoint, op: Op)
    requires e.paused && Made(e, op) && !op.Flow? && !(op.Receive? && op.frame.ty == Resume)
    ensures forall f :: f in React(e, op).out ==> f.ty == Disconnect
  {
    if op.Receive? && op.frame.ty == ReplayRequest {
      assert ReceiveStep(e, op.frame, op.now) == ReplayAll(TakeAck(e, op.frame.ack, op.now), op.now);
    }
  }

  // ---- when to ask for a replay --------------------------------------------------------------

  /** When a replay was last asked for on this transport. */
  function LastAsked(t0: Time, ops: seq<Op>): Option<Time>
    decreases ops, 0
  {
    if ops == [] then Option.None
    else
      var before, op := ops[..|ops| - 1], ops[|ops| - 1];
      if op.BeginReconnect? then Option.None
      else if Gap(Lived(t0, before), op) && AskDue(t0, before, op.now) then Some(op.now)
      else LastAsked(t0, before)
  }

  /** Does the call bring a message past the next one? */
  predicate Gap(e: Endpoint, op: Op) {
    op.Receive? && op.frame.ty == Regular && op.frame.id > e.inMsg + 1
  }

  /** Was no replay asked for on this transport in the last ten seconds? */
  predicate AskDue(t0: Time, ops: seq<Op>, now: Time)
    decreases ops, 1
  {
    LastAsked(t0, ops).None? || now - LastAsked(t0, ops).value > REPLAY_REQUEST_INTERVAL
  }

  lemma {:induction false} AskedRemembered(t0: Time, ops: seq<Op>)
    ensures Lived(t0, ops).lastReplayRequest == LastAsked(t0, ops)
  {
    if ops == [] {
    } else {
      var n := |ops| - 1;
      AskedRemembered(t0, ops[..n]);
      if ops[n].Receive? {
        Recovery.ReceiveRemembered(Lived(t0, ops[..n]), ops[n].frame, ops[n].now);
      }
    }
  }

  /** Over any life, a message past the next one has a replay asked for exactly when none was on this transport in
      the last ten seconds; a pause holds the request back. */
  lemma GapAskedExactly(t0: Time, ops: seq<Op>, frame: Frame, now: Time)
    requires Gap(Lived(t0, ops), Receive(frame, now))
    ensures var e := Lived(t0, ops); var r := ReceiveStep(e, frame, now);
            var ask := if AskDue(t0, ops, now) then [Frame(ReplayRequest, 0, 0, [])] else [];
            if e.paused then r.out == [] && r.next.held == e.held + ask else r.out == ask && r.next.held == e.held
  {
    AskedRemembered(t0, ops);
  }

  // ---- when a message was written ------------------------------------------------------------

  ghost predicate WrittenUnlessAway(e: Endpoint) {
    forall u :: u in e.unacked && u.writtenAt.None? ==> e.reconnecting
  }

  lemma ReceiveWritten(e: Endpoint, frame: Frame, now: Time)
    requires WrittenUnlessAway(e)
    ensures WrittenUnlessAway(ReceiveStep(e, frame, now).next)
  {
    Recovery.TrimSubset(e.unacked, frame.ack);
    if frame.ty == ReplayRequest {
      assert ReceiveStep(e, frame, now) == ReplayAll(TakeAck(e, frame.ack, now), now);
    }
  }

  lemma WrittenStep(e: Endpoint, op: Op)
    requires WrittenUnlessAway(e) && Made(e, op)
    ensures WrittenUnlessAway(React(e, op).next)
  {
    if op.Receive? {
      ReceiveWritten(e, op.frame, op.now);
    }
  }

  /** Over any life, a queued message not yet written was sent during a reconnect that has not ended; ending one, or
      answering a replay request, writes them all. */
  lemma {:induction false} QueuedAreWritten(t0: Time, ops: seq<Op>)
    ensures WrittenUnlessAway(Lived(t0, ops))
  {
    if ops == [] {
    } else {
      var n := |ops| - 1;
      QueuedAreWritten(t0, ops[..n]);
      if Made(Lived(t0, ops[..n]), ops[n]) {
        WrittenStep(Lived(t0, ops[..n]), ops[n]);
      }
    }
  }

  lemma ReplayWritesAll(e: Endpoint, now: Time, u: Unacked)
    requires u in EndReconnectStep(e, now).next.unacked || u in ReplayAll(e, now).next.unacked
    ensures u.writtenAt == Some(now) && u.frame in Queued(e.unacked)
  {
  }
}
