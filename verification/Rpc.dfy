/** The renderer and extension host message codec (`ember/editor-conn/src/rpc.rs`). */
module Rpc {
  import opened Wrappers
  import opened Bytes
  import opened Parsing

  datatype Arg<J> =
    | Json(json: J)
    | Undefined
    | Buffer(bytes: seq<byte>)
    | JsonWithBuffers(value: J, buffers: seq<seq<byte>>)

  datatype Reply<J> =
    | EmptyReply
    | JsonReply(json: J)
    | BufferReply(bytes: seq<byte>)
    | JsonWithBuffersReply(value: J, buffers: seq<seq<byte>>)

  datatype Message<S, J> =
    | Request(req: u32, rpcId: byte, name: S, args: seq<Arg<J>>, cancellable: bool)
    | Acknowledged(req: u32)
    | Cancel(req: u32)
    | ReplyOk(req: u32, reply: Reply<J>)
    | ReplyErr(req: u32, error: Option<J>)

  // ---- fields --------------------------------------------------------------------------------

  /** A 32-bit length and that many bytes: `put_long_string` and `put_buffer`. */
  function Long(b: seq<byte>): seq<byte> {
    ToBe(Truncate(|b|)) + b
  }

  function ReadU32(s: seq<byte>): (r: Parsed<u32>)
    ensures r.Good? ==> |r.rest| < |s|
  {
    if |s| < 4 then Bad else Good(FromBe(s[..4]), s[4..])
  }

  function ReadLong(s: seq<byte>): (r: Parsed<seq<byte>>)
    ensures r.Good? ==> |r.rest| < |s|
  {
    match ReadU32(s)
    case Bad => Bad
    case Good(n, rest) => TakeBytes(rest, n)
  }

  function ReadByte(s: seq<byte>): (r: Parsed<byte>)
    ensures r.Good? ==> |r.rest| < |s|
  {
    if s == [] then Bad else Good(s[0], s[1..])
  }

  /** An 8-bit length and that many bytes. */
  function ReadShort(s: seq<byte>): (r: Parsed<seq<byte>>)
    ensures r.Good? ==> |r.rest| < |s|
  {
    match ReadByte(s)
    case Bad => Bad
    case Good(n, rest) => TakeBytes(rest, n)
  }

  function ReadJson<S, J>(lib: Libraries<S, J>, s: seq<byte>): (r: Parsed<J>)
    ensures r.Good? ==> |r.rest| < |s|
  {
    match ReadLong(s)
    case Bad => Bad
    case Good(b, rest) => match lib.parse(b) case None => Bad case Some(v) => Good(v, rest)
  }

  function Longs(bs: seq<seq<byte>>): seq<byte> {
    if bs == [] then [] else Long(bs[0]) + Longs(bs[1..])
  }

  function ReadLongs(s: seq<byte>, n: nat): Parsed<seq<seq<byte>>>
    decreases n
  {
    if n == 0 then Good([], s)
    else
      match ReadLong(s)
      case Bad => Bad
      case Good(b, rest) => Onto([b], ReadLongs(rest, n - 1))
  }

  datatype WithBuffers<J> = WithBuffers(value: J, buffers: seq<seq<byte>>)

  function PutWithBuffers<S, J>(lib: Libraries<S, J>, w: WithBuffers<J>): seq<byte> {
    ToBe(Truncate(|w.buffers|)) + (Long(lib.render(w.value)) + Longs(w.buffers))
  }

  function ReadWithBuffers<S, J>(lib: Libraries<S, J>, s: seq<byte>): Parsed<WithBuffers<J>> {
    match ReadU32(s)
    case Bad => Bad
    case Good(n, rest) =>
      match ReadJson(lib, rest)
      case Bad => Bad
      case Good(v, rest') => match ReadLongs(rest', n) case Bad => Bad
          case Good(bs, rest'') => Good(WithBuffers(v, bs), rest'')
  }

  // ---- arguments -----------------------------------------------------------------------------

  function PutArg<S, J>(lib: Libraries<S, J>, a: Arg<J>): seq<byte> {
    match a
    case Json(v) => [1] + Long(lib.render(v))
    case Buffer(b) => [2] + Long(b)
    case JsonWithBuffers(v, bs) => [3] + PutWithBuffers(lib, WithBuffers(v, bs))
    case Undefined => [4]
  }

  function ReadArg<S, J>(lib: Libraries<S, J>, s: seq<byte>): Parsed<Arg<J>> {
    match ReadByte(s)
    case Bad => Bad
    case Good(ty, rest) =>
      if ty == 1 then match ReadJson(lib, rest) case Bad => Bad case Good(v, r) => Good(Json(v), r)
      else if ty == 2 then match ReadLong(rest) case Bad => Bad case Good(b, r) => Good(Buffer(b), r)
      else if ty == 3 then match ReadWithBuffers(lib, rest) case Bad => Bad
          case Good(w, r) => Good(JsonWithBuffers(w.value, w.buffers), r)
      else if ty == 4 then Good(Undefined, rest)
      else Bad
  }

  function PutArgs<S, J>(lib: Libraries<S, J>, args: seq<Arg<J>>): seq<byte> {
    if args == [] then [] else PutArg(lib, args[0]) + PutArgs(lib, args[1..])
  }

  function ReadArgs<S, J>(lib: Libraries<S, J>, s: seq<byte>, n: nat): Parsed<seq<Arg<J>>>
    decreases n
  {
    if n == 0 then Good([], s)
    else
      match ReadArg(lib, s)
      case Bad => Bad
      case Good(a, rest) => Onto([a], ReadArgs(lib, rest, n - 1))
  }

  // ---- messages ------------------------------------------------------------------------------

  /** Only JSON arguments: the whole list is sent as one JSON array. */
  predicate Simple<J>(args: seq<Arg<J>>) {
    forall i :: 0 <= i < |args| ==> args[i].Json?
  }

  function Jsons<J>(args: seq<Arg<J>>): (vs: seq<J>)
    requires Simple(args)
    ensures |vs| == |args| && forall i :: 0 <= i < |args| ==> vs[i] == args[i].json
  {
    seq(|args|, i requires 0 <= i < |args| => args[i].json)
  }

  function JsonArgs<J>(vs: seq<J>): (args: seq<Arg<J>>)
    ensures |args| == |vs| && forall i :: 0 <= i < |vs| ==> args[i] == Json(vs[i])
  {
    seq(|vs|, i requires 0 <= i < |vs| => Json(vs[i]))
  }

  function RequestType(simple: bool, cancellable: bool): byte {
    if simple then (if cancellable then 2 else 1) else (if cancellable then 4 else 3)
  }

  /** An 8-bit length and the method name. */
  function ShortName(name: seq<byte>): seq<byte> {
    [|name| % 0x100] + name
  }

  function ArgsBytes<S, J>(lib: Libraries<S, J>, args: seq<Arg<J>>): seq<byte> {
    if Simple(args) then Long(lib.renderList(Jsons(args))) else [|args| % 0x100] + PutArgs(lib, args)
  }

  /** What follows the type and the request number. */
  function Body<S, J>(lib: Libraries<S, J>, m: Message<S, J>): seq<byte> {
    match m
    case Request(_, rpcId, name, args, _) => [rpcId] + ShortName(lib.utf8(name)) + ArgsBytes(lib, args)
    case Acknowledged(_) | Cancel(_) => []
    case ReplyOk(_, reply) => (
      match reply
      case EmptyReply => []
      case BufferReply(b) => Long(b)
      case JsonReply(v) => Long(lib.render(v))
      case JsonWithBuffersReply(v, bs) => PutWithBuffers(lib, WithBuffers(v, bs)))
    case ReplyErr(_, error) => match error case Some(e) => Long(lib.render(e)) case None => []
  }

  function TypeOf<S, J>(m: Message<S, J>): byte {
    match m
    case Request(_, _, _, args, cancellable) => RequestType(Simple(args), cancellable)
    case Acknowledged(_) => 5
    case Cancel(_) => 6
    case ReplyOk(_, reply) => (
      match reply case EmptyReply => 7 case BufferReply(_) => 8 case JsonReply(_) => 9
          case JsonWithBuffersReply(_, _) => 10)
    case ReplyErr(_, error) => if error.Some? then 11 else 12
  }

  /** `encode` refuses a method name over 255 bytes, and over 255 mixed arguments. */
  predicate Encodable<S, J>(lib: Libraries<S, J>, m: Message<S, J>) {
    m.Request? ==> |lib.utf8(m.name)| <= 255 && (Simple(m.args) || |m.args| <= 255)
  }

  function Encoded<S, J>(lib: Libraries<S, J>, m: Message<S, J>): seq<byte> {
    [TypeOf(m)] + (ToBe(m.req) + Body(lib, m))
  }

  method PutEach(out: seq<byte>, buffers: seq<seq<byte>>) returns (out': seq<byte>)
    ensures out' == out + Longs(buffers)
  {
    out' := out;
    for i := 0 to |buffers|
      invariant out' + Longs(buffers[i..]) == out + Longs(buffers)
    {
      assert buffers[i..][1..] == buffers[i + 1..];
      out' := out' + Long(buffers[i]);
    }
  }

  method PutOne<S, J>(lib: Libraries<S, J>, out: seq<byte>, a: Arg<J>) returns (out': seq<byte>)
    ensures out' == out + PutArg(lib, a)
  {
    match a {
      case Json(v) => out' := out + ([1] + Long(lib.render(v)));
      case Buffer(b) => out' := out + ([2] + Long(b));
      case JsonWithBuffers(v, bs) =>
        var header := out + [3] + ToBe(Truncate(|bs|)) + Long(lib.render(v));
        out' := PutEach(header, bs);
      case Undefined => out' := out + [4];
    }
  }

  lemma PutArgsCons<S, J>(lib: Libraries<S, J>, out: seq<byte>, args: seq<Arg<J>>)
    requires args != []
    ensures out + PutArgs(lib, args) == out + PutArg(lib, args[0]) + PutArgs(lib, args[1..])
  {
  }

  method PutMixed<S, J>(lib: Libraries<S, J>, out: seq<byte>, args: seq<Arg<J>>) returns (out': seq<byte>)
    ensures out' == out + PutArgs(lib, args)
    decreases |args|
  {
    out' := out;
    for i := 0 to |args|
      invariant out' + PutArgs(lib, args[i..]) == out + PutArgs(lib, args)
    {
      assert args[i..][0] == args[i] && args[i..][1..] == args[i + 1..];
      PutArgsCons(lib, out', args[i..]);
      out' := PutOne(lib, out', args[i]);
    }
    assert PutArgs(lib, args[|args|..]) == [];
  }

  method PutArguments<S, J>(lib: Libraries<S, J>, args: seq<Arg<J>>) returns (r: Result<seq<byte>, string>)
    ensures r.Ok? <==> Simple(args) || |args| <= 255
    ensures r.Ok? ==> r.value == ArgsBytes(lib, args)
  {
    if Simple(args) {
      return Ok(Long(lib.renderList(Jsons(args))));
    }
    if |args| > 255 {
      return Err("more than 255 mixed args");
    }
    var out := PutMixed(lib, [|args|], args);
    r := Ok(out);
  }

  method PutRequest<S, J>(lib: Libraries<S, J>, m: Message<S, J>) returns (r: Result<seq<byte>, string>)
    requires m.Request?
    ensures r.Ok? <==> Encodable(lib, m)
    ensures r.Ok? ==> r.value == Body(lib, m)
  {
    var b := lib.utf8(m.name);
    if |b| > 255 {
      return Err("method name too long");
    }
    var out := [m.rpcId] + ShortName(b);
    var args := PutArguments(lib, m.args);
    r := if args.Err? then args else Ok(out + args.value);
  }

  method PutReply<S, J>(lib: Libraries<S, J>, m: Message<S, J>) returns (out: seq<byte>)
    requires !m.Request?
    ensures out == Body(lib, m)
  {
    out := [];
    match m {
      case ReplyOk(_, JsonWithBuffersReply(v, bs)) =>
        out := PutEach(ToBe(Truncate(|bs|)) + Long(lib.render(v)), bs);
      case ReplyOk(_, BufferReply(b)) => out := Long(b);
      case ReplyOk(_, JsonReply(v)) => out := Long(lib.render(v));
      case ReplyErr(_, Some(e)) => out := Long(lib.render(e));
      case _ =>
    }
  }

  /** `encode`. */
  method Encode<S, J>(lib: Libraries<S, J>, m: Message<S, J>) returns (r: Result<seq<byte>, string>)
    ensures r.Ok? <==> Encodable(lib, m)
    ensures r.Ok? ==> r.value == Encoded(lib, m)
  {
    var body: seq<byte>;
    if m.Request? {
      r := PutRequest(lib, m);
      if r.Err? {
        return;
      }
      body := r.value;
    } else {
      body := PutReply(lib, m);
    }
    r := Ok([TypeOf(m)] + (ToBe(m.req) + body));
  }

  /** The request's part after its number. */
  function RequestOf<S, J>(lib: Libraries<S, J>, req: u32, simple: bool, cancellable: bool,
      s: seq<byte>): Option<Message<S, J>> {
    match ReadByte(s)
    case Bad => None
    case Good(rpcId, s1) =>
      match ReadShort(s1)
      case Bad => None
      case Good(b, s2) =>
        var name := lib.fromUtf8Lossy(b);
        if simple then
          match ReadLong(s2)
          case Bad => None
          case Good(text, _) => match lib.parseList(text) case None => None
              case Some(vs) => Some(Request(req, rpcId, name, JsonArgs(vs), cancellable))
        else
          match ReadByte(s2)
          case Bad => None
          case Good(n, s3) => match ReadArgs(lib, s3, n) case Bad => None
              case Good(args, _) => Some(Request(req, rpcId, name, args, cancellable))
  }

  function OtherOf<S, J>(lib: Libraries<S, J>, req: u32, ty: byte, s: seq<byte>): Option<Message<S, J>> {
    if ty == 5 then Some(Acknowledged(req))
    else if ty == 6 then Some(Cancel(req))
    else if ty == 7 then Some(ReplyOk(req, EmptyReply))
    else if ty == 8 then match ReadLong(s) case Bad => None case Good(b, _) => Some(ReplyOk(req, BufferReply(b)))
    else if ty == 9 then match ReadJson(lib, s) case Bad => None case Good(v, _) => Some(ReplyOk(req, JsonReply(v)))
    else if ty == 10 then
      match ReadWithBuffers(lib, s) case Bad => None
          case Good(w, _) => Some(ReplyOk(req, JsonWithBuffersReply(w.value, w.buffers)))
    else if ty == 11 then match ReadJson(lib, s) case Bad => None case Good(v, _) => Some(ReplyErr(req, Some(v)))
    else if ty == 12 then Some(ReplyErr(req, None))
    else None
  }

  function Decoded<S, J>(lib: Libraries<S, J>, buf: seq<byte>): Option<Message<S, J>> {
    match ReadByte(buf)
    case Bad => None
    case Good(ty, rest) =>
      match ReadU32(rest)
      case Bad => None
      case Good(req, body) =>
        if 1 <= ty <= 4 then RequestOf(lib, req, ty <= 2, ty % 2 == 0, body) else OtherOf(lib, req, ty, body)
  }

  /** The cursor `decode` moves over its buffer. */
  class Reader {
    const buf: seq<byte>
    var pos: nat

    ghost predicate Valid()
      reads this
    {
      pos <= |buf|
    }

    ghost function Rest(): seq<byte>
      requires Valid()
      reads this
    {
      buf[pos..]
    }

    constructor (buf: seq<byte>)
      ensures Valid() && Rest() == buf
    {
      this.buf, pos := buf, 0;
    }

    method Take(n: nat) returns (r: Parsed<seq<byte>>)
      requires Valid()
      modifies this
      ensures Valid() && r == TakeBytes(old(Rest()), n) && Rest() == if r.Good? then r.rest else old(Rest())
    {
      if pos + n > |buf| {
        return Bad;
      }
      assert buf[pos..][..n] == buf[pos..pos + n] && buf[pos..][n..] == buf[pos + n..];
      r := Good(buf[pos..pos + n], buf[pos + n..]);
      pos := pos + n;
    }

    method U8() returns (r: Parsed<byte>)
      requires Valid()
      modifies this
      ensures Valid() && r == ReadByte(old(Rest())) && (r.Good? ==> Rest() == r.rest)
    {
      var b := Take(1);
      r := if b.Bad? then Bad else Good(b.value[0], b.rest);
    }

    method U32() returns (r: Parsed<u32>)
      requires Valid()
      modifies this
      ensures Valid() && r == ReadU32(old(Rest())) && (r.Good? ==> Rest() == r.rest)
    {
      var b := Take(4);
      r := if b.Bad? then Bad else Good(FromBe(b.value), b.rest);
    }

    method Short() returns (r: Parsed<seq<byte>>)
      requires Valid()
      modifies this
      ensures Valid() && r == ReadShort(old(Rest())) && (r.Good? ==> Rest() == r.rest)
    {
      var n := U8();
      if n.Bad? {
        return Bad;
      }
      r := Take(n.value);
    }

    method LongBytes() returns (r: Parsed<seq<byte>>)
      requires Valid()
      modifies this
      ensures Valid() && r == ReadLong(old(Rest())) && (r.Good? ==> Rest() == r.rest)
    {
      var n := U32();
      if n.Bad? {
        return Bad;
      }
      r := Take(n.value);
    }
  }

  method DecodeJson<S, J>(lib: Libraries<S, J>, reader: Reader) returns (r: Parsed<J>)
    requires reader.Valid()
    modifies reader
    ensures reader.Valid() && r == ReadJson(lib, old(reader.Rest())) && (r.Good? ==> reader.Rest() == r.rest)
  {
    var b := reader.LongBytes();
    if b.Bad? {
      return Bad;
    }
    var v := lib.parse(b.value);
    r := if v.None? then Bad else Good(v.value, b.rest);
  }

  function Onto<T>(front: seq<T>, r: Parsed<seq<T>>): Parsed<seq<T>> {
    match r case Bad => Bad case Good(more, rest) => Good(front + more, rest)
  }

  lemma OntoMore<T>(front: seq<T>, x: T, r: Parsed<seq<T>>)
    ensures Onto(front, Onto([x], r)) == Onto(front + [x], r)
    ensures Onto([], r) == r
  {
    if r.Good? {
      assert front + ([x] + r.value) == front + [x] + r.value;
      assert [] + r.value == r.value;
    }
  }

  method DecodeBuffers(reader: Reader, n: nat) returns (r: Parsed<seq<seq<byte>>>)
    requires reader.Valid()
    modifies reader
    ensures reader.Valid() && r == ReadLongs(old(reader.Rest()), n) && (r.Good? ==> reader.Rest() == r.rest)
  {
    var bs: seq<seq<byte>> := [];
    ghost var start := reader.Rest();
    OntoMore([], [], ReadLongs(start, n));
    for i := 0 to n
      invariant reader.Valid()
      invariant ReadLongs(start, n) == Onto(bs, ReadLongs(reader.Rest(), n - i))
    {
      var b := reader.LongBytes();
      if b.Bad? {
        return Bad;
      }
      OntoMore(bs, b.value, ReadLongs(b.rest, n - i - 1));
      bs := bs + [b.value];
    }
    assert bs + [] == bs;
    r := Good(bs, reader.buf[reader.pos..]);
  }

  method DecodeWithBuffers<S, J>(lib: Libraries<S, J>, reader: Reader) returns (r: Parsed<WithBuffers<J>>)
    requires reader.Valid()
    modifies reader
    ensures reader.Valid() && r == ReadWithBuffers(lib, old(reader.Rest())) && (r.Good? ==> reader.Rest() == r.rest)
  {
    var n := reader.U32();
    if n.Bad? {
      return Bad;
    }
    var v := DecodeJson(lib, reader);
    if v.Bad? {
      return Bad;
    }
    var bs := DecodeBuffers(reader, n.value);
    r := if bs.Bad? then Bad else Good(WithBuffers(v.value, bs.value), bs.rest);
  }

  method DecodeArg<S, J>(lib: Libraries<S, J>, reader: Reader) returns (r: Parsed<Arg<J>>)
    requires reader.Valid()
    modifies reader
    ensures reader.Valid() && r == ReadArg(lib, old(reader.Rest())) && (r.Good? ==> reader.Rest() == r.rest)
  {
    var ty := reader.U8();
    if ty.Bad? {
      return Bad;
    }
    if ty.value == 1 {
      var v := DecodeJson(lib, reader);
      r := if v.Bad? then Bad else Good(Json(v.value), v.rest);
    } else if ty.value == 2 {
      var b := reader.LongBytes();
      r := if b.Bad? then Bad else Good(Buffer(b.value), b.rest);
    } else if ty.value == 3 {
      var w := DecodeWithBuffers(lib, reader);
      r := if w.Bad? then Bad else Good(JsonWithBuffers(w.value.value, w.value.buffers), w.rest);
    } else {
      r := if ty.value == 4 then Good(Undefined, ty.rest) else Bad;
    }
  }

  method DecodeArgs<S, J>(lib: Libraries<S, J>, reader: Reader, n: nat) returns (r: Parsed<seq<Arg<J>>>)
    requires reader.Valid()
    modifies reader
    ensures reader.Valid() && r == ReadArgs(lib, old(reader.Rest()), n) && (r.Good? ==> reader.Rest() == r.rest)
  {
    var args: seq<Arg<J>> := [];
    ghost var start := reader.Rest();
    OntoMore([], Undefined, ReadArgs(lib, start, n));
    for i := 0 to n
      invariant reader.Valid()
      invariant ReadArgs(lib, start, n) == Onto(args, ReadArgs(lib, reader.Rest(), n - i))
    {
      var a := DecodeArg(lib, reader);
      if a.Bad? {
        return Bad;
      }
      OntoMore(args, a.value, ReadArgs(lib, a.rest, n - i - 1));
      args := args + [a.value];
    }
    assert args + [] == args;
    r := Good(args, reader.buf[reader.pos..]);
  }

  method DecodeRequest<S, J>(lib: Libraries<S, J>, reader: Reader, req: u32, simple: bool, cancellable: bool)
    returns (r: Option<Message<S, J>>)
    requires reader.Valid()
    modifies reader
    ensures r == RequestOf(lib, req, simple, cancellable, old(reader.Rest()))
  {
    var rpcId := reader.U8();
    if rpcId.Bad? {
      return None;
    }
    var name := reader.Short();
    if name.Bad? {
      return None;
    }
    if simple {
      var text := reader.LongBytes();
      if text.Bad? {
        return None;
      }
      var vs := lib.parseList(text.value);
      return if vs.None? then None
             else Some(Request(req, rpcId.value, lib.fromUtf8Lossy(name.value), JsonArgs(vs.value), cancellable));
    }
    var n := reader.U8();
    if n.Bad? {
      return None;
    }
    var args := DecodeArgs(lib, reader, n.value);
    r := if args.Bad? then None
         else Some(Request(req, rpcId.value, lib.fromUtf8Lossy(name.value), args.value, cancellable));
  }

  method DecodeOther<S, J>(lib: Libraries<S, J>, reader: Reader, req: u32, ty: byte) returns (r: Option<Message<S, J>>)
    requires reader.Valid()
    modifies reader
    ensures r == OtherOf(lib, req, ty, old(reader.Rest()))
  {
    if ty == 5 {
      r := Some(Acknowledged(req));
    } else if ty == 6 {
      r := Some(Cancel(req));
    } else if ty == 12 {
      r := Some(ReplyErr(req, None));
    } else if ty == 11 {
      var v := DecodeJson(lib, reader);
      r := if v.Bad? then None else Some(ReplyErr(req, Some(v.value)));
    } else if 7 <= ty <= 10 {
      r := DecodeReplyOk(lib, reader, req, ty);
    } else {
      r := None;
    }
  }

  method DecodeReplyOk<S, J>(lib: Libraries<S, J>, reader: Reader, req: u32, ty: byte)
    returns (r: Option<Message<S, J>>)
    requires reader.Valid() && 7 <= ty <= 10
    modifies reader
    ensures r == OtherOf(lib, req, ty, old(reader.Rest()))
  {
    if ty == 7 {
      r := Some(ReplyOk(req, EmptyReply));
    } else if ty == 8 {
      var b := reader.LongBytes();
      r := if b.Bad? then None else Some(ReplyOk(req, BufferReply(b.value)));
    } else if ty == 9 {
      var v := DecodeJson(lib, reader);
      r := if v.Bad? then None else Some(ReplyOk(req, JsonReply(v.value)));
    } else {
      var w := DecodeWithBuffers(lib, reader);
      r := if w.Bad? then None else Some(ReplyOk(req, JsonWithBuffersReply(w.value.value, w.value.buffers)));
    }
  }

  /** `decode`. */
  method Decode<S, J>(lib: Libraries<S, J>, buf: seq<byte>) returns (r: Option<Message<S, J>>)
    ensures r == Decoded(lib, buf)
  {
    var reader := new Reader(buf);
    var ty := reader.U8();
    if ty.Bad? {
      return None;
    }
    var req := reader.U32();
    if req.Bad? {
      return None;
    }
    if 1 <= ty.value <= 4 {
      r := DecodeRequest(lib, reader, req.value, ty.value <= 2, ty.value % 2 == 0);
    } else {
      r := DecodeOther(lib, reader, req.value, ty.value);
    }
  }

  // ---- round trip ----------------------------------------------------------------------------

  predicate Small(b: seq<byte>) {
    |b| < 0x1_0000_0000
  }

  predicate AllSmall(bs: seq<seq<byte>>) {
    forall i :: 0 <= i < |bs| ==> Small(bs[i])
  }

  predicate WithBuffersFits<S, J>(lib: Libraries<S, J>, w: WithBuffers<J>) {
    |w.buffers| < 0x1_0000_0000 && Small(lib.render(w.value)) && AllSmall(w.buffers)
  }

  predicate ArgFits<S, J>(lib: Libraries<S, J>, a: Arg<J>) {
    match a
    case Json(v) => Small(lib.render(v))
    case Undefined => true
    case Buffer(b) => Small(b)
    case JsonWithBuffers(v, bs) => WithBuffersFits(lib, WithBuffers(v, bs))
  }

  /** Every length in the message fits its 32-bit field. */
  predicate Fits<S, J>(lib: Libraries<S, J>, m: Message<S, J>) {
    match m
    case Request(_, _, _, args, _) =>
      if Simple(args) then Small(lib.renderList(Jsons(args))) else ArgsFit(lib, args)
    case ReplyOk(_, BufferReply(b)) => Small(b)
    case ReplyOk(_, JsonReply(v)) => Small(lib.render(v))
    case ReplyOk(_, JsonWithBuffersReply(v, bs)) => WithBuffersFits(lib, WithBuffers(v, bs))
    case ReplyErr(_, Some(e)) => Small(lib.render(e))
    case _ => true
  }

  lemma U32Reads(n: u32, tail: seq<byte>)
    ensures ReadU32(ToBe(n) + tail) == Good(n, tail)
  {
    var s := ToBe(n) + tail;
    assert s[..4] == ToBe(n) && s[4..] == tail;
    BeRoundTrip(n, []);
  }

  lemma LongReads(b: seq<byte>, tail: seq<byte>)
    ensures Small(b) ==> ReadLong(Long(b) + tail) == Good(b, tail)
    ensures !Small(b) ==> var n := Truncate(|b|);
                          n + 0x1_0000_0000 <= |b| && ReadLong(Long(b) + tail) == Good(b[..n], b[n..] + tail)
  {
    var n := Truncate(|b|);
    assert Long(b) + tail == ToBe(n) + (b + tail);
    U32Reads(n, b + tail);
    TruncateIs(|b|);
    if Small(b) {
      TakeFront(b, tail);
    } else {
      assert (b + tail)[..n] == b[..n] && (b + tail)[n..] == b[n..] + tail;
    }
  }

  lemma JsonReads<S(!new), J(!new)>(lib: Libraries<S, J>, v: J, tail: seq<byte>)
    requires Faithful(lib) && CutsShow(lib)
    ensures Small(lib.render(v)) ==> ReadJson(lib, Long(lib.render(v)) + tail) == Good(v, tail)
    ensures !Small(lib.render(v)) ==> var r := ReadJson(lib, Long(lib.render(v)) + tail); r.Good? ==> r.value != v
  {
    LongReads(lib.render(v), tail);
  }

  lemma {:induction false} LongsRead(bs: seq<seq<byte>>, tail: seq<byte>)
    ensures AllSmall(bs) ==> ReadLongs(Longs(bs) + tail, |bs|) == Good(bs, tail)
    ensures !AllSmall(bs) ==> var r := ReadLongs(Longs(bs) + tail, |bs|); r.Good? ==> r.value != bs
    decreases |bs|
  {
    if bs == [] {
      assert [] + tail == tail;
    } else {
      var rest := Longs(bs[1..]) + tail;
      assert Longs(bs) + tail == Long(bs[0]) + rest;
      LongReads(bs[0], rest);
      LongsRead(bs[1..], tail);
      assert bs == [bs[0]] + bs[1..];
      assert AllSmall(bs) <==> Small(bs[0]) && AllSmall(bs[1..]);
      var r := ReadLongs(Longs(bs) + tail, |bs|);
      if r.Good? && Small(bs[0]) {
        assert r.value[1..] == ReadLongs(rest, |bs| - 1).value;
      }
    }
  }

  lemma {:induction false} LongsCount(s: seq<byte>, n: nat)
    ensures var r := ReadLongs(s, n); r.Good? ==> |r.value| == n
    decreases n
  {
    if n > 0 && ReadLong(s).Good? {
      LongsCount(ReadLong(s).rest, n - 1);
    }
  }

  lemma WithBuffersReads<S(!new), J(!new)>(lib: Libraries<S, J>, w: WithBuffers<J>, tail: seq<byte>)
    requires Faithful(lib) && CutsShow(lib)
    ensures WithBuffersFits(lib, w) ==> ReadWithBuffers(lib, PutWithBuffers(lib, w) + tail) == Good(w, tail)
    ensures !WithBuffersFits(lib, w) ==> var r := ReadWithBuffers(lib, PutWithBuffers(lib, w) + tail);
        r.Good? ==> r.value != w
  {
    var n := Truncate(|w.buffers|);
    var s2 := Longs(w.buffers) + tail;
    var s1 := Long(lib.render(w.value)) + s2;
    assert PutWithBuffers(lib, w) + tail == ToBe(n) + s1;
    U32Reads(n, s1);
    TruncateIs(|w.buffers|);
    JsonReads(lib, w.value, s2);
    LongsRead(w.buffers, tail);
    var r := ReadWithBuffers(lib, PutWithBuffers(lib, w) + tail);
    if r.Good? {
      LongsCount(ReadJson(lib, s1).rest, n);
    }
  }

  lemma ArgReads<S(!new), J(!new)>(lib: Libraries<S, J>, a: Arg<J>, tail: seq<byte>)
    requires Faithful(lib) && CutsShow(lib)
    ensures ArgFits(lib, a) ==> ReadArg(lib, PutArg(lib, a) + tail) == Good(a, tail)
    ensures !ArgFits(lib, a) ==> var r := ReadArg(lib, PutArg(lib, a) + tail); r.Good? ==> r.value != a
  {
    var payload := PutArg(lib, a)[1..];
    assert (PutArg(lib, a) + tail)[1..] == payload + tail;
    match a {
      case Json(v) => JsonReads(lib, v, tail);
      case Buffer(b) => LongReads(b, tail);
      case JsonWithBuffers(v, bs) => ArgBuffersRead(lib, v, bs, tail);
      case Undefined => assert [] + tail == tail;
    }
  }

  lemma ArgBuffersRead<S(!new), J(!new)>(lib: Libraries<S, J>, v: J, bs: seq<seq<byte>>, tail: seq<byte>)
    requires Faithful(lib) && CutsShow(lib)
    ensures var a := JsonWithBuffers(v, bs); var r := ReadArg(lib, PutArg(lib, a) + tail);
            && (ArgFits(lib, a) ==> r == Good(a, tail))
            && (!ArgFits(lib, a) ==> r.Good? ==> r.value != a)
  {
    var w := WithBuffers(v, bs);
    assert ([3] + PutWithBuffers(lib, w) + tail)[1..] == PutWithBuffers(lib, w) + tail;
    WithBuffersReads(lib, w, tail);
  }

  predicate ArgsFit<S, J>(lib: Libraries<S, J>, args: seq<Arg<J>>) {
    forall i :: 0 <= i < |args| ==> ArgFits(lib, args[i])
  }

  lemma ArgsFitCons<S, J>(lib: Libraries<S, J>, args: seq<Arg<J>>)
    requires args != []
    ensures ArgsFit(lib, args) <==> ArgFits(lib, args[0]) && ArgsFit(lib, args[1..])
  {
    assert args == [args[0]] + args[1..];
  }

  /** A list read one element at a time is right exactly when its first element and its rest are. */
  lemma OntoFirst<T>(x: T, more: Parsed<seq<T>>, all: seq<T>)
    requires all != []
    ensures more.Good? && x == all[0] && more.value == all[1..] ==> Onto([x], more) == Good(all, more.rest)
    ensures var r := Onto([x], more);
            r.Good? && r.value == all ==> x == all[0] && more.Good? && more.value == all[1..]
  {
    assert all == [all[0]] + all[1..];
    if more.Good? {
      assert ([x] + more.value)[1..] == more.value;
    }
  }

  lemma {:induction false} ArgsRead<S(!new), J(!new)>(lib: Libraries<S, J>, args: seq<Arg<J>>, tail: seq<byte>)
    requires Faithful(lib) && CutsShow(lib)
    ensures ArgsFit(lib, args) ==> ReadArgs(lib, PutArgs(lib, args) + tail, |args|) == Good(args, tail)
    ensures !ArgsFit(lib, args) ==> var r := ReadArgs(lib, PutArgs(lib, args) + tail, |args|);
        r.Good? ==> r.value != args
    decreases |args|
  {
    if args == [] {
      assert [] + tail == tail;
    } else {
      var rest := PutArgs(lib, args[1..]) + tail;
      assert PutArgs(lib, args) + tail == PutArg(lib, args[0]) + rest;
      ArgsFitCons(lib, args);
      ArgReads(lib, args[0], rest);
      ArgsRead(lib, args[1..], tail);
      var a := ReadArg(lib, PutArgs(lib, args) + tail);
      if a.Good? {
        OntoFirst(a.value, ReadArgs(lib, a.rest, |args| - 1), args);
      }
    }
  }

  lemma ShortReads(b: seq<byte>, tail: seq<byte>)
    requires |b| <= 255
    ensures ReadShort([|b|] + (b + tail)) == Good(b, tail)
  {
    assert ([|b|] + (b + tail))[1..] == b + tail;
    TakeFront(b, tail);
  }

  lemma RequestBody<S, J>(lib: Libraries<S, J>, m: Message<S, J>)
    requires m.Request? && Encodable(lib, m)
    ensures var b := lib.utf8(m.name); Body(lib, m) == [m.rpcId] + ([|b|] + (b + ArgsBytes(lib, m.args)))
  {
  }

  /** What comes after a request's method name. */
  lemma RequestHead<S, J>(lib: Libraries<S, J>, m: Message<S, J>, tail: seq<byte>)
    requires m.Request? && Encodable(lib, m) && tail == ArgsBytes(lib, m.args)
    ensures var s := Body(lib, m);
            && ReadByte(s) == Good(m.rpcId, s[1..])
            && ReadShort(s[1..]) == Good(lib.utf8(m.name), tail)
  {
    RequestBody(lib, m);
    ShortReads(lib.utf8(m.name), tail);
  }

  lemma SimpleReads<S(!new), J(!new)>(lib: Libraries<S, J>, m: Message<S, J>)
    requires Faithful(lib) && CutsShow(lib) && m.Request? && Encodable(lib, m) && Simple(m.args)
    ensures RequestOf(lib, m.req, true, m.cancellable, Body(lib, m)) == Some(m) <==>
        Small(lib.renderList(Jsons(m.args)))
  {
    var text := lib.renderList(Jsons(m.args));
    RequestHead(lib, m, Long(text));
    LongReads(text, []);
    assert Long(text) + [] == Long(text);
    assert JsonArgs(Jsons(m.args)) == m.args;
    if !Small(text) {
      var vs := lib.parseList(text[..Truncate(|text|)]);
      if vs.Some? {
        JsonArgsBack(vs.value, m.args);
      }
    }
  }

  lemma JsonArgsBack<J>(vs: seq<J>, args: seq<Arg<J>>)
    requires Simple(args)
    ensures JsonArgs(vs) == args ==> vs == Jsons(args)
  {
    if JsonArgs(vs) == args {
      forall i | 0 <= i < |vs|
        ensures vs[i] == Jsons(args)[i]
      {
        assert JsonArgs(vs)[i] == args[i];
      }
    }
  }

  /** What a mixed request decodes to, given what its arguments read as. */
  function WithArgs<S, J>(m: Message<S, J>, read: Parsed<seq<Arg<J>>>): Option<Message<S, J>>
    requires m.Request?
  {
    match read
    case Bad => None
    case Good(args, _) => Some(m.(args := args))
  }

  lemma MixedRequestOf<S, J>(lib: Libraries<S, J>, m: Message<S, J>, s: seq<byte>, args: seq<byte>)
    requires m.Request? && |m.args| <= 255 && lib.fromUtf8Lossy(lib.utf8(m.name)) == m.name
    requires s != [] && ReadByte(s) == Good(m.rpcId, s[1..])
    requires ReadShort(s[1..]) == Good(lib.utf8(m.name), [|m.args|] + args)
    ensures RequestOf(lib, m.req, false, m.cancellable, s) == WithArgs(m, ReadArgs(lib, args, |m.args|))
  {
    assert ([|m.args|] + args)[1..] == args;
  }

  lemma MixedIs<S, J>(lib: Libraries<S, J>, m: Message<S, J>, s: seq<byte>, name: seq<byte>, args: seq<byte>)
    requires m.Request? && |m.args| <= 255 && |name| <= 255
    requires name == lib.utf8(m.name) && lib.fromUtf8Lossy(name) == m.name
    requires s == [m.rpcId] + ([|name|] + (name + ([|m.args|] + args)))
    ensures RequestOf(lib, m.req, false, m.cancellable, s) == WithArgs(m, ReadArgs(lib, args, |m.args|))
  {
    assert s[1..] == [|name|] + (name + ([|m.args|] + args));
    ShortReads(name, [|m.args|] + args);
    MixedRequestOf(lib, m, s, args);
  }

  lemma MixedBytes<S, J>(lib: Libraries<S, J>, args: seq<Arg<J>>)
    requires !Simple(args) && |args| <= 255
    ensures ArgsBytes(lib, args) == [|args|] + PutArgs(lib, args)
  {
  }

  lemma MixedBody<S, J>(lib: Libraries<S, J>, m: Message<S, J>, name: seq<byte>, args: seq<byte>)
    requires m.Request? && Encodable(lib, m) && !Simple(m.args)
    requires name == lib.utf8(m.name) && args == PutArgs(lib, m.args)
    ensures |m.args| <= 255 && |name| <= 255 && Body(lib, m) == [m.rpcId] + ([|name|] + (name + ([|m.args|] + args)))
  {
    RequestBody(lib, m);
    MixedBytes(lib, m.args);
  }

  lemma MixedReads<S(!new), J(!new)>(lib: Libraries<S, J>, m: Message<S, J>)
    requires Faithful(lib) && CutsShow(lib) && m.Request? && Encodable(lib, m) && !Simple(m.args)
    ensures RequestOf(lib, m.req, false, m.cancellable, Body(lib, m)) == Some(m)
       <==> ArgsFit(lib, m.args)
  {
    var name, args := lib.utf8(m.name), PutArgs(lib, m.args);
    MixedBody(lib, m, name, args);
    MixedIs(lib, m, Body(lib, m), name, args);
    ArgsDecide(lib, m);
  }

  lemma ArgsDecide<S(!new), J(!new)>(lib: Libraries<S, J>, m: Message<S, J>)
    requires Faithful(lib) && CutsShow(lib) && m.Request?
    ensures WithArgs(m, ReadArgs(lib, PutArgs(lib, m.args), |m.args|)) == Some(m) <==> ArgsFit(lib, m.args)
  {
    assert PutArgs(lib, m.args) + [] == PutArgs(lib, m.args);
    ArgsRead(lib, m.args, []);
  }

  lemma RequestReads<S(!new), J(!new)>(lib: Libraries<S, J>, m: Message<S, J>)
    requires Faithful(lib) && CutsShow(lib) && m.Request? && Encodable(lib, m)
    ensures RequestOf(lib, m.req, Simple(m.args), m.cancellable, Body(lib, m)) == Some(m) <==> Fits(lib, m)
  {
    if Simple(m.args) {
      SimpleReads(lib, m);
    } else {
      MixedReads(lib, m);
    }
  }

  lemma OtherReads<S(!new), J(!new)>(lib: Libraries<S, J>, m: Message<S, J>)
    requires Faithful(lib) && CutsShow(lib) && !m.Request?
    ensures OtherOf(lib, m.req, TypeOf(m), Body(lib, m)) == Some(m) <==> Fits(lib, m)
  {
    assert Body(lib, m) + [] == Body(lib, m);
    match m {
      case ReplyOk(_, BufferReply(b)) => LongReads(b, []);
      case ReplyOk(_, JsonReply(v)) => JsonReads(lib, v, []);
      case ReplyOk(_, JsonWithBuffersReply(v, bs)) => WithBuffersReads(lib, WithBuffers(v, bs), []);
      case ReplyErr(_, Some(e)) => JsonReads(lib, e, []);
      case _ =>
    }
  }

  /** Decoding inverts every successful encoding, exactly when every length is below 2^32. */
  lemma RoundTrip<S(!new), J(!new)>(lib: Libraries<S, J>, m: Message<S, J>)
    requires Faithful(lib) && CutsShow(lib) && Encodable(lib, m)
    ensures Decoded(lib, Encoded(lib, m)) == Some(m) <==> Fits(lib, m)
  {
    var s := Encoded(lib, m);
    assert s[1..] == ToBe(m.req) + Body(lib, m);
    U32Reads(m.req, Body(lib, m));
    if m.Request? {
      RequestReads(lib, m);
    } else {
      OtherReads(lib, m);
    }
  }
}
