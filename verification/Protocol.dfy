/** The persistent connection state machine (`ember/editor-conn/src/protocol.rs`). */
module Protocol {
  import opened Wrappers
  import opened Bytes
  import opened Frames

  /** A clock reading, in milliseconds. */
  type Time = int

  const ACKNOWLEDGE_TIME: int := 2000
  const TIMEOUT_TIME: int := 20_000
  const REPLAY_REQUEST_INTERVAL: int := 10_000

  /** `Instant::duration_since`, which saturates at zero. */
  function Since(now: Time, t: Time): nat {
    if now < t then 0 else now - t
  }

  datatype Inbound = Data(data: seq<byte>) | ControlData(data: seq<byte>) | Disconnected

  datatype Unacked = Unacked(frame: Frame, writtenAt: Option<Time>)

  /** Everything `PersistentProtocol` remembers. */
  datatype Endpoint = Endpoint(
    outMsg: u32,
    outAck: u32,
    unacked: seq<Unacked>,
    inMsg: u32,
    inAck: u32,
    lastIncomingRegular: Option<Time>,
    lastRead: Time,
    lastReplayRequest: Option<Time>,
    lastTimeout: Time,
    reconnecting: bool,
    paused: bool,
    held: seq<Frame>,
    didSendDisconnect: bool)

  /** The new state, the frames to write now, and what the layer above is told. */
  datatype Reaction = Reaction(next: Endpoint, out: seq<Frame>, inbound: Option<Inbound> := Option.None,
      dead: bool := false)

  function Fresh(now: Time): Endpoint {
    Endpoint(0, 0, [], 0, 0, Option.None, now, Option.None, now, false, false, [], false)
  }

  function EmitAll(e: Endpoint, fs: seq<Frame>): Reaction {
    if e.paused then Reaction(e.(held := e.held + fs), []) else Reaction(e, fs)
  }

  function Queued(q: seq<Unacked>): (fs: seq<Frame>)
    ensures |fs| == |q| && forall i :: 0 <= i < |q| ==> fs[i] == q[i].frame
  {
    seq(|q|, i requires 0 <= i < |q| => q[i].frame)
  }

  function Stamped(q: seq<Unacked>, now: Time): (s: seq<Unacked>)
    ensures |s| == |q| && forall i :: 0 <= i < |q| ==> s[i] == Unacked(q[i].frame, Some(now))
  {
    seq(|q|, i requires 0 <= i < |q| => Unacked(q[i].frame, Some(now)))
  }

  lemma StampedNext(q: seq<Unacked>, now: Time, i: nat)
    requires i < |q|
    ensures (Stamped(q, now)[..i] + q[i..])[i := q[i].(writtenAt := Some(now))]
         == Stamped(q, now)[..i + 1] + q[i + 1..]
  {
  }

  function TrimAcked(q: seq<Unacked>, ack: u32): seq<Unacked> {
    if q != [] && q[0].frame.id <= ack then TrimAcked(q[1..], ack) else q
  }

  function SendStep(e: Endpoint, data: seq<byte>, now: Time): Reaction
    requires e.outMsg < U32_MAX
  {
    var frame := Frame(Regular, e.outMsg + 1, e.inMsg, data);
    var counted := e.(outMsg := e.outMsg + 1, inAck := e.inMsg);
    if e.reconnecting then
      Reaction(counted.(unacked := e.unacked + [Unacked(frame, Option.None)]), [])
    else
      EmitAll(counted.(unacked := e.unacked + [Unacked(frame, Some(now))]), [frame])
  }

  function SendControlStep(e: Endpoint, data: seq<byte>): Reaction {
    EmitAll(e, [Frame(Control, 0, 0, data)])
  }

  function SendDisconnectStep(e: Endpoint): Reaction {
    if e.didSendDisconnect then Reaction(e, [])
    else Reaction(e.(didSendDisconnect := true), [Empty(Disconnect, 0)])
  }

  /** The acknowledgement every incoming frame carries. */
  function TakeAck(e: Endpoint, ack: u32, now: Time): Endpoint {
    if ack > e.outAck then e.(lastRead := now, outAck := ack, unacked := TrimAcked(e.unacked, ack))
    else e.(lastRead := now)
  }

  function ReplayAll(e: Endpoint, now: Time): Reaction {
    EmitAll(e.(unacked := Stamped(e.unacked, now)), Queued(e.unacked))
  }

  function ReceiveStep(e: Endpoint, frame: Frame, now: Time): Reaction {
    var e := TakeAck(e, frame.ack, now);
    match frame.ty
    case None | Ack | KeepAlive => Reaction(e, [])
    case Regular =>
      if frame.id <= e.inMsg then Reaction(e, [])
      else if frame.id == e.inMsg + 1 then
        Reaction(e.(inMsg := frame.id, lastIncomingRegular := Some(now)), [], Some(Data(frame.data)))
      else if e.lastReplayRequest.None? || Since(now, e.lastReplayRequest.value) > REPLAY_REQUEST_INTERVAL then
        EmitAll(e.(lastReplayRequest := Some(now)), [Empty(ReplayRequest, 0)])
      else Reaction(e, [])
    case Control => Reaction(e, [], Some(ControlData(frame.data)))
    case Disconnect => Reaction(e, [], Some(Disconnected))
    case ReplayRequest => ReplayAll(e, now)
    case Pause => Reaction(e.(paused := true), [])
    case Resume => Reaction(e.(paused := false, held := []), e.held)
  }

  function TickStep(e: Endpoint, now: Time): Reaction {
    var due := e.inMsg > e.inAck && e.lastIncomingRegular.Some?
               && Since(now, e.lastIncomingRegular.value) >= ACKNOWLEDGE_TIME;
    var dead := !e.reconnecting && Since(now, e.lastRead) >= TIMEOUT_TIME && Since(now, e.lastTimeout) >= TIMEOUT_TIME;
    var acked := if due then EmitAll(e.(inAck := e.inMsg), [Empty(Ack, e.inMsg)]) else Reaction(e, []);
    acked.(next := if dead then acked.next.(lastTimeout := now) else acked.next, dead := dead)
  }

  function KeepAliveStep(e: Endpoint): Reaction {
    EmitAll(e.(inAck := e.inMsg), [Empty(KeepAlive, e.inMsg)])
  }

  function BeginReconnectStep(e: Endpoint, now: Time): Reaction {
    Reaction(e.(reconnecting := true, paused := false, held := [], lastReplayRequest := Option.None,
                lastRead := now, lastTimeout := now), [])
  }

  function EndReconnectStep(e: Endpoint, now: Time): Reaction {
    EmitAll(e.(reconnecting := false, inAck := e.inMsg, unacked := Stamped(e.unacked, now)),
            [Empty(Ack, e.inMsg)] + Queued(e.unacked))
  }

  // ---- the object itself ---------------------------------------------------------------------

  /** An acknowledgement and then the replay are what the end of a reconnect emits at once. */
  lemma AckThenReplay(e: Endpoint, now: Time)
    requires !e.reconnecting && e.inAck == e.inMsg
    ensures var a := EmitAll(e, [Empty(Ack, e.inAck)]); var b := ReplayAll(a.next, now);
            EndReconnectStep(e, now) == Reaction(b.next, a.out + b.out)
  {
  }

  class PersistentProtocol {
    var outMsg: u32
    var outAck: u32
    var unacked: seq<Unacked>
    var inMsg: u32
    var inAck: u32
    var lastIncomingRegular: Option<Time>
    var lastRead: Time
    var lastReplayRequest: Option<Time>
    var lastTimeout: Time
    var reconnecting: bool
    var paused: bool
    var held: seq<Frame>
    var didSendDisconnect: bool

    ghost function View(): Endpoint
      reads this
    {
      Endpoint(outMsg, outAck, unacked, inMsg, inAck, lastIncomingRegular, lastRead, lastReplayRequest, lastTimeout,
               reconnecting, paused, held, didSendDisconnect)
    }

    constructor (now: Time)
      ensures View() == Fresh(now)
    {
      outMsg, outAck, unacked := 0, 0, [];
      inMsg, inAck, lastIncomingRegular := 0, 0, Option.None;
      lastRead, lastReplayRequest, lastTimeout := now, Option.None, now;
      reconnecting, paused, held, didSendDisconnect := false, false, [], false;
    }

    method Emit(f: Frame, out: seq<Frame>) returns (out': seq<Frame>)
      modifies `held
      ensures var r := EmitAll(old(View()), [f]); View() == r.next && out' == out + r.out
    {
      if paused {
        held := held + [f];
        out' := out;
      } else {
        out' := out + [f];
      }
    }

    method EmitEach(frames: seq<Frame>, out: seq<Frame>) returns (out': seq<Frame>)
      modifies `held
      ensures var r := EmitAll(old(View()), frames); View() == r.next && out' == out + r.out
    {
      out' := out;
      for i := 0 to |frames|
        invariant var r := EmitAll(old(View()), frames[..i]); View() == r.next && out' == out + r.out
      {
        assert frames[..i + 1] == frames[..i] + [frames[i]];
        out' := Emit(frames[i], out');
      }
      assert frames[..|frames|] == frames;
    }

    method Send(data: seq<byte>, now: Time) returns (out: seq<Frame>)
      requires outMsg < U32_MAX
      modifies this
      ensures Reaction(View(), out) == SendStep(old(View()), data, now)
    {
      outMsg := outMsg + 1;
      inAck := inMsg;
      var frame := Frame(Regular, outMsg, inAck, data);
      out := [];
      if reconnecting {
        unacked := unacked + [Unacked(frame, Option.None)];
      } else {
        unacked := unacked + [Unacked(frame, Some(now))];
        out := Emit(frame, out);
      }
    }

    method SendControl(data: seq<byte>) returns (out: seq<Frame>)
      modifies this
      ensures Reaction(View(), out) == SendControlStep(old(View()), data)
    {
      out := Emit(Frame(Control, 0, 0, data), []);
    }

    method SendDisconnect() returns (out: seq<Frame>)
      modifies this
      ensures Reaction(View(), out) == SendDisconnectStep(old(View()))
    {
      if didSendDisconnect {
        return [];
      }
      didSendDisconnect := true;
      out := [Empty(Disconnect, 0)];
    }

    method MarkWritten(now: Time)
      modifies `unacked
      ensures View() == old(View()).(unacked := Stamped(old(unacked), now))
    {
      ghost var before := unacked;
      for i := 0 to |unacked|
        invariant |unacked| == |before|
        invariant unacked == Stamped(before, now)[..i] + before[i..]
      {
        StampedNext(before, now, i);
        unacked := unacked[i := unacked[i].(writtenAt := Some(now))];
      }
    }

    method AcceptAck(ack: u32, now: Time)
      modifies this
      ensures View() == TakeAck(old(View()), ack, now)
    {
      lastRead := now;
      if ack > outAck {
        outAck := ack;
        while unacked != [] && unacked[0].frame.id <= ack
          invariant View() == old(View()).(lastRead := now, outAck := ack, unacked := unacked)
          invariant TrimAcked(unacked, ack) == TrimAcked(old(unacked), ack)
          decreases |unacked|
        {
          unacked := unacked[1..];
        }
      }
    }

    method Resend(now: Time) returns (out: seq<Frame>)
      modifies this
      ensures Reaction(View(), out) == ReplayAll(old(View()), now)
    {
      var frames := Queued(unacked);
      MarkWritten(now);
      out := EmitEach(frames, []);
    }

    method Receive(frame: Frame, now: Time) returns (inbound: Option<Inbound>, out: seq<Frame>)
      modifies this
      ensures Reaction(View(), out, inbound) == ReceiveStep(old(View()), frame, now)
    {
      AcceptAck(frame.ack, now);
      out := [];
      inbound := Option.None;
      match frame.ty {
        case None | Ack | KeepAlive =>
        case Regular =>
          if frame.id > inMsg {
            if frame.id != inMsg + 1 {
              var due := lastReplayRequest.None? || Since(now, lastReplayRequest.value) > REPLAY_REQUEST_INTERVAL;
              if due {
                lastReplayRequest := Some(now);
                out := Emit(Empty(ReplayRequest, 0), out);
              }
            } else {
              inMsg := frame.id;
              lastIncomingRegular := Some(now);
              inbound := Some(Data(frame.data));
            }
          }
        case Control =>
          inbound := Some(ControlData(frame.data));
        case Disconnect =>
          inbound := Some(Disconnected);
        case ReplayRequest =>
          out := Resend(now);
        case Pause =>
          paused := true;
        case Resume =>
          paused := false;
          out := out + held;
          held := [];
      }
    }

    method Tick(now: Time) returns (out: seq<Frame>, dead: bool)
      modifies this
      ensures Reaction(View(), out, Option.None, dead) == TickStep(old(View()), now)
    {
      out := [];
      if inMsg > inAck {
        if lastIncomingRegular.Some? && Since(now, lastIncomingRegular.value) >= ACKNOWLEDGE_TIME {
          inAck := inMsg;
          out := Emit(Empty(Ack, inAck), out);
        }
      }
      dead := !reconnecting && Since(now, lastRead) >= TIMEOUT_TIME && Since(now, lastTimeout) >= TIMEOUT_TIME;
      if dead {
        lastTimeout := now;
      }
    }

    method SendKeepAlive() returns (out: seq<Frame>)
      modifies this
      ensures Reaction(View(), out) == KeepAliveStep(old(View()))
    {
      inAck := inMsg;
      out := Emit(Empty(KeepAlive, inAck), []);
    }

    method BeginReconnect(now: Time)
      modifies this
      ensures Reaction(View(), []) == BeginReconnectStep(old(View()), now)
    {
      reconnecting := true;
      paused := false;
      held := [];
      lastReplayRequest := Option.None;
      lastRead := now;
      lastTimeout := now;
    }

    method EndReconnect(now: Time) returns (out: seq<Frame>)
      modifies this
      ensures Reaction(View(), out) == EndReconnectStep(old(View()), now)
    {
      reconnecting := false;
      inAck := inMsg;
      AckThenReplay(View(), now);
      out := Emit(Empty(Ack, inAck), []);
      var replay := Resend(now);
      out := out + replay;
    }
  }
}
