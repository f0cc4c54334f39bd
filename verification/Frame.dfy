/** Wire framing (`ember/editor-conn/src/frame.rs`): a 13-byte header and its payload. */
module Frames {
  import opened Wrappers
  import opened Bytes

  const HEADER_LEN: nat := 13

  const MAX_FRAME_LEN: nat := 256 * 1024 * 1024

  datatype MessageType =
    | None
    | Regular
    | Control
    | Ack
    | Disconnect
    | ReplayRequest
    | Pause
    | Resume
    | KeepAlive

  datatype Frame = Frame(ty: MessageType, id: u32, ack: u32, data: seq<byte>)

  function Empty(ty: MessageType, ack: u32): Frame {
    Frame(ty, 0, ack, [])
  }

  function Tag(ty: MessageType): byte {
    match ty
    case None => 0
    case Regular => 1
    case Control => 2
    case Ack => 3
    case Disconnect => 5
    case ReplayRequest => 6
    case Pause => 7
    case Resume => 8
    case KeepAlive => 9
  }

  function FromU8(v: byte): Option<MessageType> {
    match v
    case 0 => Some(MessageType.None)
    case 1 => Some(Regular)
    case 2 => Some(Control)
    case 3 => Some(Ack)
    case 5 => Some(Disconnect)
    case 6 => Some(ReplayRequest)
    case 7 => Some(Pause)
    case 8 => Some(Resume)
    case 9 => Some(KeepAlive)
    case _ => Option.None
  }

  /** The bytes of one frame; the length field keeps only the low 32 bits, as the cast does. */
  function Encoding(f: Frame): (s: seq<byte>)
    ensures |s| == HEADER_LEN + |f.data|
  {
    [Tag(f.ty)] + ToBe(f.id) + ToBe(f.ack) + ToBe(Truncate(|f.data|)) + f.data
  }

  function EncodingAll(fs: seq<Frame>): seq<byte> {
    if fs == [] then [] else Encoding(fs[0]) + EncodingAll(fs[1..])
  }

  /** A frame the decoder accepts back. */
  predicate Fits(f: Frame) {
    |f.data| <= MAX_FRAME_LEN
  }

  /** `Frame::encode_into`, appending to a growing buffer. */
  method EncodeInto(f: Frame, buffer: seq<byte>) returns (out: seq<byte>)
    ensures out == buffer + Encoding(f)
  {
    out := buffer + [Tag(f.ty)];
    out := out + ToBe(f.id);
    out := out + ToBe(f.ack);
    out := out + ToBe(Truncate(|f.data|));
    out := out + f.data;
  }

  // ---- decoding ------------------------------------------------------------------------------

  datatype Next = NeedMore | Oversized | Got(frame: Frame, rest: seq<byte>)

  /** What the front of a buffer holds. */
  function Front(buf: seq<byte>): (r: Next)
    ensures r.Got? ==> |r.rest| < |buf|
  {
    if |buf| < HEADER_LEN then NeedMore
    else
      var len := FromBe(buf[9..13]);
      if len > MAX_FRAME_LEN then Oversized
      else if |buf| < HEADER_LEN + len then NeedMore
      else
        var ty := match FromU8(buf[0]) case Some(t) => t case None => MessageType.None;
        Got(Frame(ty, FromBe(buf[1..5]), FromBe(buf[5..9]), buf[HEADER_LEN..HEADER_LEN + len]),
            buf[HEADER_LEN + len..])
  }

  /** The outcome of pulling frames until the decoder wants more bytes or gives up. */
  datatype Drained = Drained(frames: seq<Frame>, rest: seq<byte>, failed: bool)

  function Drain(buf: seq<byte>): Drained
    decreases |buf|
  {
    match Front(buf)
    case NeedMore => Drained([], buf, false)
    case Oversized => Drained([], buf, true)
    case Got(f, rest) =>
      var d := Drain(rest);
      Drained([f] + d.frames, d.rest, d.failed)
  }

  /** `d` after `frames`. */
  function Then(frames: seq<Frame>, d: Drained): Drained {
    Drained(frames + d.frames, d.rest, d.failed)
  }

  lemma DrainStep(frames: seq<Frame>, buf: seq<byte>)
    ensures match Front(buf)
            case NeedMore => Then(frames, Drain(buf)) == Drained(frames, buf, false)
            case Oversized => Then(frames, Drain(buf)) == Drained(frames, buf, true)
            case Got(f, rest) => Then(frames, Drain(buf)) == Then(frames + [f], Drain(rest))
  {
    match Front(buf) {
      case Got(f, rest) => assert frames + ([f] + Drain(rest).frames) == frames + [f] + Drain(rest).frames;
      case _ => assert frames + [] == frames;
    }
  }

  /** `FrameDecoder`: feed chunks, pull frames. */
  class FrameDecoder {
    var buf: seq<byte>

    constructor ()
      ensures buf == []
    {
      buf := [];
    }

    method Push(chunk: seq<byte>)
      modifies this
      ensures buf == old(buf) + chunk
    {
      buf := buf + chunk;
    }

    method NextFrame() returns (r: Result<Option<Frame>, string>)
      modifies this
      ensures match Front(old(buf))
              case NeedMore => r == Ok(Option.None) && buf == old(buf)
              case Oversized => r.Err? && buf == old(buf)
              case Got(f, rest) => r == Ok(Some(f)) && buf == rest
    {
      if |buf| < HEADER_LEN {
        return Ok(Option.None);
      }
      var tyRaw := buf[0];
      var id := FromBe(buf[1..5]);
      var ack := FromBe(buf[5..9]);
      var len := FromBe(buf[9..13]);
      if len > MAX_FRAME_LEN {
        return Err("frame length exceeds limit");
      }
      if |buf| < HEADER_LEN + len {
        return Ok(Option.None);
      }
      var data := buf[HEADER_LEN..HEADER_LEN + len];
      buf := buf[HEADER_LEN + len..];
      var ty := match FromU8(tyRaw) case Some(t) => t case None => MessageType.None;
      r := Ok(Some(Frame(ty, id, ack, data)));
    }

    /** One turn of the reader task: push a chunk, then pull until nothing more is whole. */
    method Pump(chunk: seq<byte>) returns (frames: seq<Frame>, failed: bool)
      modifies this
      ensures Drained(frames, buf, failed) == Drain(old(buf) + chunk)
    {
      Push(chunk);
      frames, failed := [], false;
      ghost var whole := Drain(buf);
      assert whole == Then([], whole);
      while true
        invariant !failed && whole == Then(frames, Drain(buf))
        decreases |buf|
      {
        DrainStep(frames, buf);
        var r := NextFrame();
        match r {
          case Err(_) =>
            failed := true;
            return;
          case Ok(None) =>
            return;
          case Ok(Some(f)) =>
            frames := frames + [f];
        }
      }
    }
  }

  // ---- chunk independence --------------------------------------------------------------------

  function Concat(chunks: seq<seq<byte>>): seq<byte> {
    if chunks == [] then [] else chunks[0] + Concat(chunks[1..])
  }

  /** The reader's whole life: pump each chunk in turn, stop for good on a malformed length. */
  function ReadAll(buf: seq<byte>, chunks: seq<seq<byte>>): Drained
    decreases |chunks|
  {
    if chunks == [] then Drained([], buf, false)
    else
      var d := Drain(buf + chunks[0]);
      if d.failed then d
      else
        var r := ReadAll(d.rest, chunks[1..]);
        Drained(d.frames + r.frames, r.rest, r.failed)
  }

  lemma FrontExtends(a: seq<byte>, b: seq<byte>)
    requires !Front(a).NeedMore?
    ensures Front(a).Oversized? ==> Front(a + b).Oversized?
    ensures Front(a).Got? ==> Front(a + b) == Got(Front(a).frame, Front(a).rest + b)
  {
    var ab := a + b;
    assert ab[1..5] == a[1..5] && ab[5..9] == a[5..9] && ab[9..13] == a[9..13];
    var len := FromBe(a[9..13]);
    if len <= MAX_FRAME_LEN {
      assert ab[HEADER_LEN..HEADER_LEN + len] == a[HEADER_LEN..HEADER_LEN + len];
      assert ab[HEADER_LEN + len..] == a[HEADER_LEN + len..] + b;
    }
  }

  /** `all` is what `d` becomes once `b` has arrived as well. */
  predicate Continues(d: Drained, b: seq<byte>, all: Drained) {
    if d.failed then all.failed && all.frames == d.frames
    else var e := Drain(d.rest + b); all == Drained(d.frames + e.frames, e.rest, e.failed)
  }

  lemma ContinuesAfter(f: Frame, d: Drained, b: seq<byte>, all: Drained)
    requires Continues(d, b, all)
    ensures Continues(Drained([f] + d.frames, d.rest, d.failed), b, Drained([f] + all.frames, all.rest, all.failed))
  {
    if !d.failed {
      assert [f] + (d.frames + Drain(d.rest + b).frames) == [f] + d.frames + Drain(d.rest + b).frames;
    }
  }

  /** Bytes that arrive later never change what earlier bytes already decoded to. */
  lemma {:induction false} DrainExtends(a: seq<byte>, b: seq<byte>)
    ensures Continues(Drain(a), b, Drain(a + b))
    decreases |a|
  {
    var front := Front(a);
    if front.NeedMore? {
      assert Drain(a) == Drained([], a, false);
      assert Continues(Drain(a), b, Drain(a + b));
    } else if front.Oversized? {
      FrontExtends(a, b);
    } else {
      FrontExtends(a, b);
      DrainExtends(front.rest, b);
      ContinuesAfter(front.frame, Drain(front.rest), b, Drain(front.rest + b));
    }
  }

  /** Any split of any byte stream, well formed or not, decodes to the same frames. */
  lemma {:induction false} ChunkIndependence(buf: seq<byte>, chunks: seq<seq<byte>>)
    requires Front(buf).NeedMore?
    ensures var whole := Drain(buf + Concat(chunks));
            var r := ReadAll(buf, chunks);
            r.frames == whole.frames && r.failed == whole.failed && (!r.failed ==> r.rest == whole.rest)
    decreases |chunks|
  {
    if chunks == [] {
      assert buf + Concat(chunks) == buf;
    } else {
      var d := Drain(buf + chunks[0]);
      assert buf + Concat(chunks) == (buf + chunks[0]) + Concat(chunks[1..]);
      DrainExtends(buf + chunks[0], Concat(chunks[1..]));
      if !d.failed {
        DrainStops(buf + chunks[0]);
        ChunkIndependence(d.rest, chunks[1..]);
      }
    }
  }

  lemma {:induction false} DrainStops(buf: seq<byte>)
    requires !Drain(buf).failed
    ensures Front(Drain(buf).rest).NeedMore?
    decreases |buf|
  {
    match Front(buf) {
      case NeedMore =>
      case Got(_, rest) => DrainStops(rest);
    }
  }

  // ---- round trip ----------------------------------------------------------------------------

  lemma EncodingFields(f: Frame, tail: seq<byte>)
    ensures var s := Encoding(f) + tail;
            && s[0] == Tag(f.ty)
            && s[1..5] == ToBe(f.id) && s[5..9] == ToBe(f.ack)
            && s[9..13] == ToBe(Truncate(|f.data|))
            && s[HEADER_LEN..] == f.data + tail
  {
  }

  lemma FrontOfEncoding(f: Frame, tail: seq<byte>)
    ensures Fits(f) ==> Front(Encoding(f) + tail) == Got(f, tail)
    ensures !Fits(f) ==> var r := Front(Encoding(f) + tail); r.Got? ==> r.frame != f
  {
    var s := Encoding(f) + tail;
    EncodingFields(f, tail);
    BeRoundTrip(f.id, []);
    BeRoundTrip(f.ack, []);
    BeRoundTrip(Truncate(|f.data|), []);
    if Fits(f) {
      assert Truncate(|f.data|) == |f.data|;
      assert s[HEADER_LEN..HEADER_LEN + |f.data|] == s[HEADER_LEN..][..|f.data|] == f.data;
      assert s[HEADER_LEN + |f.data|..] == s[HEADER_LEN..][|f.data|..] == tail;
    }
  }

  lemma DrainEncoding(f: Frame, rest: seq<byte>)
    requires Fits(f)
    ensures var d := Drain(rest); Drain(Encoding(f) + rest) == Drained([f] + d.frames, d.rest, d.failed)
  {
    FrontOfEncoding(f, rest);
  }

  /** Encoded frames decode back exactly, nothing left over, if and only if every payload fits. */
  lemma {:induction false} FramesRoundTrip(fs: seq<Frame>)
    ensures Drain(EncodingAll(fs)) == Drained(fs, [], false) <==> forall f :: f in fs ==> Fits(f)
  {
    if fs == [] {
    } else {
      var f := fs[0];
      FrontOfEncoding(f, EncodingAll(fs[1..]));
      FramesRoundTrip(fs[1..]);
      if Fits(f) {
        var d := Drain(EncodingAll(fs[1..]));
        DrainEncoding(f, EncodingAll(fs[1..]));
        assert fs == [f] + fs[1..];
        assert [f] + d.frames == fs ==> d.frames == ([f] + d.frames)[1..] == fs[1..];
      }
    }
  }

  /** How many of `fs` are wholly inside the first `n` bytes of their encoding. */
  function Whole(fs: seq<Frame>, n: nat): (k: nat)
    ensures k <= |fs|
  {
    if fs == [] || n < |Encoding(fs[0])| then 0
    else 1 + Whole(fs[1..], n - |Encoding(fs[0])|)
  }

  /** The frames `d` holds are the first `k` of `fs`, and its rest is the rest of `n` bytes. */
  predicate CutAt(fs: seq<Frame>, n: nat, k: nat, d: Drained) {
    k <= |fs| && d.frames == fs[..k] && !d.failed && |d.rest| == n - |EncodingAll(fs[..k])|
  }

  lemma CutAfter(fs: seq<Frame>, m: nat, k: nat, d: Drained)
    requires fs != [] && CutAt(fs[1..], m, k, d)
    ensures CutAt(fs, |Encoding(fs[0])| + m, k + 1, Drained([fs[0]] + d.frames, d.rest, d.failed))
  {
    assert fs[..k + 1] == [fs[0]] + fs[1..][..k];
    assert fs[..k + 1][1..] == fs[1..][..k];
  }

  /** Cut the stream anywhere: exactly the frames that are whole by then come out, none early. */
  lemma {:induction false} NoneEarly(fs: seq<Frame>, n: nat)
    requires forall f :: f in fs ==> Fits(f)
    requires n <= |EncodingAll(fs)|
    ensures CutAt(fs, n, Whole(fs, n), Drain(EncodingAll(fs)[..n]))
  {
    if fs == [] {
    } else {
      var f, all := fs[0], EncodingAll(fs);
      if n < |Encoding(f)| {
        PartialFrameWaits(f, all, n);
      } else {
        var m := n - |Encoding(f)|;
        var rest := EncodingAll(fs[1..])[..m];
        assert all[..n] == Encoding(f) + rest;
        DrainEncoding(f, rest);
        NoneEarly(fs[1..], m);
        CutAfter(fs, m, Whole(fs[1..], m), Drain(rest));
      }
    }
  }

  lemma LengthField(f: Frame)
    requires Fits(f)
    ensures |Encoding(f)| == HEADER_LEN + |f.data| && FromBe(Encoding(f)[9..13]) == |f.data|
  {
    EncodingFields(f, []);
    assert Encoding(f) + [] == Encoding(f);
    BeRoundTrip(|f.data|, []);
    assert Truncate(|f.data|) == |f.data|;
  }

  lemma PartialFrameWaits(f: Frame, all: seq<byte>, n: nat)
    requires Fits(f) && n < |Encoding(f)| && Encoding(f) <= all
    ensures Front(all[..n]).NeedMore?
  {
    LengthField(f);
    if n >= HEADER_LEN {
      assert all[..n][9..13] == Encoding(f)[9..13];
    }
  }

  /** Fed in any chunks, the encoding of frames that fit yields those frames and empties the buffer. */
  lemma ChunkedFramesArrive(fs: seq<Frame>, chunks: seq<seq<byte>>)
    requires forall f :: f in fs ==> Fits(f)
    requires Concat(chunks) == EncodingAll(fs)
    ensures ReadAll([], chunks) == Drained(fs, [], false)
  {
    assert [] + Concat(chunks) == Concat(chunks);
    ChunkIndependence([], chunks);
    FramesRoundTrip(fs);
  }
}
