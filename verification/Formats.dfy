/** The bytes themselves, as the other side of each wire reads them (`ember/editor-conn/src/frame.rs`,
    `ember/editor-conn/src/ipc.rs`, `ember/editor-conn/src/rpc.rs`). */
module Formats {
  import opened Wrappers
  import opened Bytes
  import Parsing
  import Frames
  import Ipc
  import Rpc
  import Z32

  /** A word is written most significant byte first. */
  lemma WordIsBigEndian(n: u32)
    ensures |ToBe(n)| == 4 && Z32.Number256(ToBe(n)) == n
  {
    var s := ToBe(n);
    assert n / 0x1_0000 == n / 0x100_0000 * 0x100 + n / 0x1_0000 % 0x100;
    assert n / 0x100 == n / 0x1_0000 * 0x100 + n / 0x100 % 0x100;
    Z32.Append256([], s[0]);
    Z32.Append256([s[0]], s[1]);
    Z32.Append256([s[0], s[1]], s[2]);
    Z32.Append256([s[0], s[1], s[2]], s[3]);
    assert [] + [s[0]] == [s[0]] && [s[0]] + [s[1]] == [s[0], s[1]];
    assert [s[0], s[1]] + [s[2]] == [s[0], s[1], s[2]] && [s[0], s[1], s[2]] + [s[3]] == s;
  }

  // ---- frames --------------------------------------------------------------------------------

  /** The numbers of the frame types; 4 is not used. */
  function FrameType(v: byte): Frames.MessageType {
    if v == 1 then Frames.Regular
    else if v == 2 then Frames.Control
    else if v == 3 then Frames.Ack
    else if v == 5 then Frames.Disconnect
    else if v == 6 then Frames.ReplayRequest
    else if v == 7 then Frames.Pause
    else if v == 8 then Frames.Resume
    else if v == 9 then Frames.KeepAlive
    else Frames.MessageType.None
  }

  /** A frame is its type, its number, its acknowledgement, the length of its payload, and the payload. */
  lemma FrameLayout(f: Frames.Frame)
    requires Frames.Fits(f)
    ensures var s := Frames.Encoding(f);
            && |s| == 13 + |f.data| && FrameType(s[0]) == f.ty
            && Z32.Number256(s[1..5]) == f.id && Z32.Number256(s[5..9]) == f.ack
            && Z32.Number256(s[9..13]) == |f.data| && s[13..] == f.data
  {
    var s := Frames.Encoding(f);
    WordIsBigEndian(f.id);
    WordIsBigEndian(f.ack);
    WordIsBigEndian(Truncate(|f.data|));
    assert s[1..5] == ToBe(f.id) && s[5..9] == ToBe(f.ack) && s[9..13] == ToBe(Truncate(|f.data|));
    assert s[13..] == f.data;
  }

  /** Whatever bytes come, a whole frame at the front is read by that layout; a type that is not numbered makes it one
      that says nothing. */
  lemma FrameRead(buf: seq<byte>)
    requires Frames.Front(buf).Got?
    ensures var f, rest := Frames.Front(buf).frame, Frames.Front(buf).rest;
            && |buf| == 13 + |f.data| + |rest| && f.ty == FrameType(buf[0])
            && f.id == Z32.Number256(buf[1..5]) && f.ack == Z32.Number256(buf[5..9])
            && |f.data| == Z32.Number256(buf[9..13])
            && f.data == buf[13..13 + |f.data|] && rest == buf[13 + |f.data|..]
  {
    WordRead(buf[1..5]);
    WordRead(buf[5..9]);
    WordRead(buf[9..13]);
  }

  lemma WordRead(s: seq<byte>)
    requires |s| == 4
    ensures FromBe(s) == Z32.Number256(s)
  {
    WordIsBigEndian(FromBe(s));
    BeKept(s);
  }

  // ---- variable-length integers --------------------------------------------------------------

  /** The number a string of seven-bit groups spells, least significant first. */
  function Number128(s: seq<byte>): nat {
    if s == [] then 0 else s[0] % 0x80 + 0x80 * Number128(s[1..])
  }

  /** An integer is written in groups of seven bits, least significant first, all but the last marked, and no more
      than it needs. */
  lemma {:induction false} VqlLayout(n: nat)
    ensures var s := Ipc.Vql(n);
            && Number128(s) == n
            && (forall i :: 0 <= i < |s| ==> (s[i] >= 0x80 <==> i < |s| - 1))
            && (|s| > 1 ==> s[|s| - 1] != 0)
  {
    if n < 0x80 {
      assert [n][1..] == [];
    } else {
      VqlLayout(n / 0x80);
      var s, rest := Ipc.Vql(n), Ipc.Vql(n / 0x80);
      assert s[1..] == rest;
      assert (n % 0x80 + 0x80) % 0x80 == n % 0x80;
      VqlPositive(n / 0x80);
    }
  }

  lemma {:induction false} VqlPositive(n: nat)
    requires n > 0
    ensures var s := Ipc.Vql(n); s[|s| - 1] != 0
  {
    if n < 0x80 {
    } else {
      VqlPositive(n / 0x80);
    }
  }

  /** A number is written as the word its two's complement is: in at most five bytes, and if it is negative in five. */
  lemma IntLayout(n: Ipc.i32)
    ensures var s := Ipc.Vql(Ipc.ToU32(n));
            && Number128(s) == n as int + (if n < 0 then 0x1_0000_0000 else 0)
            && |s| <= 5 && (n < 0 ==> |s| == 5)
  {
    VqlLayout(Ipc.ToU32(n));
    VqlLength(Ipc.ToU32(n), 5);
    VqlLength(Ipc.ToU32(n), 4);
  }

  /** A number takes at most `k` groups exactly when it is below the `k`-th power of 128. */
  lemma {:induction false} VqlLength(n: nat, k: nat)
    requires k > 0
    ensures |Ipc.Vql(n)| <= k <==> n < Groups(k)
  {
    if n >= 0x80 && k > 1 {
      VqlLength(n / 0x80, k - 1);
    }
  }

  function Groups(k: nat): (r: nat)
    ensures r > 0 && (k > 0 ==> r >= 0x80)
  {
    if k == 0 then 1 else 0x80 * Groups(k - 1)
  }

  // ---- values --------------------------------------------------------------------------------

  /** The tags of the serializer's values: 0 undefined, 1 text, 2 and 3 the two kinds of buffer, 4 an array, 5 any
      other JSON, 6 an integer. */
  predicate HasTag<S, J>(v: Ipc.Value<S, J>, tag: byte) {
    match v
    case Undefined => tag == 0
    case String(_) => tag == 1
    case Buffer(_) => tag == 2
    case VsBuffer(_) => tag == 3
    case Array(_) => tag == 4
    case Object(_) => tag == 5
    case Int(_) => tag == 6
  }

  /** What follows the count: the bytes of a text, a buffer or JSON. */
  function Payload<S, J>(lib: Parsing.Libraries<S, J>, v: Ipc.Value<S, J>): seq<byte>
    requires v.String? || v.Buffer? || v.VsBuffer? || v.Object?
  {
    match v
    case String(text) => lib.utf8(text)
    case Buffer(b) => b
    case VsBuffer(b) => b
    case Object(json) => lib.render(json)
  }

  /** A text, a buffer and JSON are their tag, their length and their bytes. */
  lemma BytesLayout<S, J>(lib: Parsing.Libraries<S, J>, v: Ipc.Value<S, J>)
    requires v.String? || v.Buffer? || v.VsBuffer? || v.Object?
    ensures var s, payload := Ipc.Wire(lib, v), Payload(lib, v);
            HasTag(v, s[0]) && s == [s[0]] + Ipc.Vql(Truncate(|payload|)) + payload
  {
  }

  /** An integer is its tag and itself in groups, an array its tag, its length and its items, and undefined its tag. */
  lemma OthersLayout<S, J>(lib: Parsing.Libraries<S, J>, v: Ipc.Value<S, J>)
    requires v.Int? || v.Array? || v.Undefined?
    ensures var s := Ipc.Wire(lib, v);
            && HasTag(v, s[0])
            && match v
               case Int(n) => s == [s[0]] + Ipc.Vql(Ipc.ToU32(n))
               case Array(items) => [s[0]] + Ipc.Vql(Truncate(|items|)) <= s
               case Undefined => s == [s[0]]
  {
  }

  // ---- messages ------------------------------------------------------------------------------

  /** The numbers of the message types. */
  predicate HasType<S, J>(m: Rpc.Message<S, J>, ty: byte) {
    match m
    case Request(_, _, _, args, cancellable) =>
      ty == (if Rpc.Simple(args) then 1 else 3) + (if cancellable then 1 else 0)
    case Acknowledged(_) => ty == 5
    case Cancel(_) => ty == 6
    case ReplyOk(_, EmptyReply) => ty == 7
    case ReplyOk(_, BufferReply(_)) => ty == 8
    case ReplyOk(_, JsonReply(_)) => ty == 9
    case ReplyOk(_, JsonWithBuffersReply(_, _)) => ty == 10
    case ReplyErr(_, Some(_)) => ty == 11
    case ReplyErr(_, None) => ty == 12
  }

  /** What follows the request number: of a request the receiver's number, the length of the method's name, the name,
      and the arguments, as one JSON list if all are JSON and else counted, one by one; of a reply its value. */
  predicate Carries<S, J>(lib: Parsing.Libraries<S, J>, m: Rpc.Message<S, J>, s: seq<byte>)
    requires Rpc.Encodable(lib, m)
  {
    match m
    case Request(_, rpcId, name, args, _) =>
      Follows([rpcId, |lib.utf8(name)|] + lib.utf8(name), s, ArgsForm(lib, args))
    case ReplyOk(_, BufferReply(b)) => s == Rpc.Long(b)
    case ReplyOk(_, JsonReply(v)) => s == Rpc.Long(lib.render(v))
    case ReplyOk(_, JsonWithBuffersReply(v, bs)) => CarriesBuffers(lib, v, bs, s)
    case ReplyErr(_, Some(e)) => s == Rpc.Long(lib.render(e))
    case _ => s == []
  }

  function ArgsForm<S, J>(lib: Parsing.Libraries<S, J>, args: seq<Rpc.Arg<J>>): seq<byte>
    requires Rpc.Simple(args) || |args| <= 255
  {
    if Rpc.Simple(args) then Rpc.Long(lib.renderList(Rpc.Jsons(args))) else [|args|] + Rpc.PutArgs(lib, args)
  }

  /** `s` is `head` and then `rest`. */
  predicate Follows(head: seq<byte>, s: seq<byte>, rest: seq<byte>) {
    head <= s && s[|head|..] == rest
  }

  /** JSON with buffers: their number as a word, the JSON, and each of them. */
  predicate CarriesBuffers<S, J>(lib: Parsing.Libraries<S, J>, v: J, bs: seq<seq<byte>>, s: seq<byte>) {
    |s| >= 4 && Z32.Number256(s[..4]) == Truncate(|bs|) && s[4..] == Rpc.Long(lib.render(v)) + Rpc.Longs(bs)
  }

  lemma BuffersLayout<S, J>(lib: Parsing.Libraries<S, J>, v: J, bs: seq<seq<byte>>)
    ensures CarriesBuffers(lib, v, bs, Rpc.PutWithBuffers(lib, Rpc.WithBuffers(v, bs)))
  {
    var s := Rpc.PutWithBuffers(lib, Rpc.WithBuffers(v, bs));
    WordIsBigEndian(Truncate(|bs|));
    assert s[..4] == ToBe(Truncate(|bs|));
    assert s[4..] == Rpc.Long(lib.render(v)) + Rpc.Longs(bs);
  }

  /** A message is its type and its request number, and what it carries. */
  lemma MessageLayout<S, J>(lib: Parsing.Libraries<S, J>, m: Rpc.Message<S, J>)
    requires Rpc.Encodable(lib, m)
    ensures var s := Rpc.Encoded(lib, m);
            && |s| >= 5 && HasType(m, s[0]) && Z32.Number256(s[1..5]) == m.req && Carries(lib, m, s[5..])
  {
    var ty, body := Rpc.TypeOf(m), Rpc.Body(lib, m);
    TypeNumbered(m);
    HeaderLayout(ty, m.req, body);
    BodyLayout(lib, m);
  }

  lemma TypeNumbered<S, J>(m: Rpc.Message<S, J>)
    ensures HasType(m, Rpc.TypeOf(m))
  {
  }

  lemma HeaderLayout(ty: byte, req: u32, body: seq<byte>)
    ensures var s := [ty] + (ToBe(req) + body); s[0] == ty && Z32.Number256(s[1..5]) == req && s[5..] == body
  {
    WordIsBigEndian(req);
    assert ([ty] + (ToBe(req) + body))[1..5] == ToBe(req);
  }

  lemma BodyLayout<S, J>(lib: Parsing.Libraries<S, J>, m: Rpc.Message<S, J>)
    requires Rpc.Encodable(lib, m)
    ensures Carries(lib, m, Rpc.Body(lib, m))
  {
    if m.Request? {
      ArgsLayout(lib, m.args);
      NameLayout(m.rpcId, lib.utf8(m.name), Rpc.ArgsBytes(lib, m.args));
      assert Rpc.Body(lib, m) == [m.rpcId] + Rpc.ShortName(lib.utf8(m.name)) + Rpc.ArgsBytes(lib, m.args);
    } else {
      ReplyLayout(lib, m);
    }
  }

  lemma ArgsLayout<S, J>(lib: Parsing.Libraries<S, J>, args: seq<Rpc.Arg<J>>)
    requires Rpc.Simple(args) || |args| <= 255
    ensures Rpc.ArgsBytes(lib, args) == ArgsForm(lib, args)
  {
  }

  lemma ReplyLayout<S, J>(lib: Parsing.Libraries<S, J>, m: Rpc.Message<S, J>)
    requires !m.Request?
    ensures Carries(lib, m, Rpc.Body(lib, m))
  {
    if m.ReplyOk? && m.reply.JsonWithBuffersReply? {
      BuffersLayout(lib, m.reply.value, m.reply.buffers);
    }
  }

  lemma NameLayout(rpcId: byte, name: seq<byte>, rest: seq<byte>)
    requires |name| <= 255
    ensures Follows([rpcId, |name|] + name, [rpcId] + Rpc.ShortName(name) + rest, rest)
  {
    var head := [rpcId, |name|] + name;
    assert [rpcId] + Rpc.ShortName(name) == head;
  }

  /** An argument is its type and its payload: 1 JSON, 2 a buffer, 3 JSON with buffers, 4 undefined. */
  lemma ArgumentLayout<S, J>(lib: Parsing.Libraries<S, J>, a: Rpc.Arg<J>)
    ensures var s := Rpc.PutArg(lib, a);
            && s != []
            && match a
               case Json(v) => s == [1] + Rpc.Long(lib.render(v))
               case Buffer(b) => s == [2] + Rpc.Long(b)
               case JsonWithBuffers(v, bs) => s[0] == 3 && CarriesBuffers(lib, v, bs, s[1..])
               case Undefined => s == [4]
  {
    if a.JsonWithBuffers? {
      BuffersLayout(lib, a.value, a.buffers);
    }
  }

  /** A long text or buffer is its length as a word, and its bytes. */
  lemma LongLayout(b: seq<byte>)
    ensures var s := Rpc.Long(b); Z32.Number256(s[..4]) == Truncate(|b|) && s[4..] == b
  {
    WordIsBigEndian(Truncate(|b|));
    assert Rpc.Long(b)[..4] == ToBe(Truncate(|b|));
  }
}
