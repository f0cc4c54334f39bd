/** The IPC value serializer (`ember/editor-conn/src/ipc.rs`). */
module Ipc {
  import opened Wrappers
  import opened Bytes
  import opened Parsing

  type i32 = n: int | -0x8000_0000 <= n < 0x8000_0000

  datatype Value<S, J> =
    | Undefined
    | String(text: S)
    | Buffer(bytes: seq<byte>)
    | VsBuffer(bytes: seq<byte>)
    | Array(items: seq<Value<S, J>>)
    | Object(json: J)
    | Int(int32: i32)

  /** `i32 as u32`. */
  function ToU32(n: i32): u32 {
    if n < 0 then n as int + 0x1_0000_0000 else n
  }

  /** `u32 as i32`. */
  function ToI32(n: u32): i32 {
    if n >= 0x8000_0000 then n as int - 0x1_0000_0000 else n
  }

  // ---- variable-length integers --------------------------------------------------------------

  function Vql(n: nat): (s: seq<byte>)
    ensures s != []
  {
    if n < 0x80 then [n] else [n % 0x80 + 0x80] + Vql(n / 0x80)
  }

  /** `write_vql`. */
  method WriteVql(out: seq<byte>, value: u32) returns (out': seq<byte>)
    ensures out' == out + Vql(value)
  {
    if value == 0 {
      return out + [0];
    }
    out' := out;
    var v: u32 := value;
    while v != 0
      invariant v != 0 ==> out' + Vql(v) == out + Vql(value)
      invariant v == 0 ==> out' == out + Vql(value)
      decreases v
    {
      var b: byte := v % 0x80;
      v := v / 0x80;
      if v != 0 {
        b := b + 0x80;
      }
      out' := out' + [b];
    }
  }

  /** `x << 7 * group`. */
  function Shifted(x: nat, group: nat): nat {
    if group == 0 then x
    else if group == 1 then x * 0x80
    else if group == 2 then x * 0x4000
    else if group == 3 then x * 0x20_0000
    else if group == 4 then x * 0x1000_0000
    else x * 0x8_0000_0000
  }

  /** The `group`-th and later 7-bit groups, added to what the earlier ones gave; at most six groups are read. */
  function VqlFrom(s: seq<byte>, group: nat, value: nat): (r: Parsed<u32>)
    requires group <= 5
    ensures r.Good? ==> |r.rest| < |s|
    decreases 5 - group
  {
    if s == [] then Bad
    else
      var value' := value + Shifted(s[0] % 0x80, group);
      if s[0] < 0x80 then Good(value' % 0x1_0000_0000, s[1..])
      else if group == 5 then Bad
      else VqlFrom(s[1..], group + 1, value')
  }

  /** `read_vql`, on the bytes from the cursor on. */
  method ReadVql(buf: seq<byte>, pos: nat) returns (r: Result<u32, string>, pos': nat)
    requires pos <= |buf|
    ensures pos <= pos' <= |buf|
    ensures match VqlFrom(buf[pos..], 0, 0)
            case Bad => r.Err?
            case Good(n, rest) => r == Ok(n) && buf[pos'..] == rest
  {
    var value: nat := 0;
    var group := 0;
    pos' := pos;
    while true
      invariant group <= 5 && pos <= pos' <= |buf|
      invariant VqlFrom(buf[pos'..], group, value) == VqlFrom(buf[pos..], 0, 0)
      decreases 5 - group
    {
      if pos' == |buf| {
        return Err("truncated VQL"), pos';
      }
      var b := buf[pos'];
      assert buf[pos'..][1..] == buf[pos' + 1..];
      pos' := pos' + 1;
      value := value + Shifted(b % 0x80, group);
      if b < 0x80 {
        return Ok(value % 0x1_0000_0000), pos';
      }
      if group == 5 {
        return Err("VQL too long"), pos';
      }
      group := group + 1;
    }
  }

  lemma VqlMore(b: byte, rest: seq<byte>, group: nat, value: nat)
    requires 0x80 <= b && group < 5
    ensures VqlFrom([b] + rest, group, value) == VqlFrom(rest, group + 1, value + Shifted(b % 0x80, group))
  {
    assert ([b] + rest)[1..] == rest;
  }

  lemma VqlLast(b: byte, rest: seq<byte>, group: nat, value: nat)
    requires b < 0x80 && group <= 5
    ensures VqlFrom([b] + rest, group, value) == Good((value + Shifted(b, group)) % 0x1_0000_0000, rest)
  {
    assert ([b] + rest)[1..] == rest && b % 0x80 == b;
  }

  lemma {:induction false} VqlFromRoundTrip(n: nat, tail: seq<byte>, group: nat, value: nat)
    requires group <= 4 && Shifted(n, group) < 0x8_0000_0000
    ensures VqlFrom(Vql(n) + tail, group, value) == Good((value + Shifted(n, group)) % 0x1_0000_0000, tail)
    decreases n
  {
    if n < 0x80 {
      VqlLast(n, tail, group, value);
    } else {
      var b, rest := n % 0x80 + 0x80, Vql(n / 0x80) + tail;
      assert Vql(n) + tail == [b] + rest;
      Regroup(n, group);
      VqlMore(b, rest, group, value);
      LowBits(n % 0x80);
      VqlFromRoundTrip(n / 0x80, tail, group + 1, value + Shifted(n % 0x80, group));
    }
  }

  lemma LowBits(n: nat)
    requires n < 0x80
    ensures (n + 0x80) % 0x80 == n
  {
  }

  lemma Regroup(n: nat, group: nat)
    requires group <= 4 && 0x80 <= n && Shifted(n, group) < 0x8_0000_0000
    ensures group <= 3
    ensures Shifted(n % 0x80, group) + Shifted(n / 0x80, group + 1) == Shifted(n, group)
  {
    if group == 0 {} else if group == 1 {} else if group == 2 {} else if group == 3 {} else {}
  }

  /** Every 32-bit number reads back, whatever follows it. */
  lemma VqlRoundTrip(n: u32, tail: seq<byte>)
    ensures VqlFrom(Vql(n) + tail, 0, 0) == Good(n, tail)
  {
    VqlFromRoundTrip(n, tail, 0, 0);
    SmallWord(n);
  }

  lemma SmallWord(n: u32)
    ensures (0 + Shifted(n, 0)) % 0x1_0000_0000 == n
  {
  }

  // ---- values --------------------------------------------------------------------------------

  function Counted(tag: byte, payload: seq<byte>): seq<byte> {
    [tag] + Vql(Truncate(|payload|)) + payload
  }

  function Wire<S, J>(lib: Libraries<S, J>, v: Value<S, J>): (s: seq<byte>)
    ensures s != []
    decreases v, 0
  {
    match v
    case Undefined => [0]
    case String(text) => Counted(1, lib.utf8(text))
    case Buffer(b) => Counted(2, b)
    case VsBuffer(b) => Counted(3, b)
    case Array(items) => [4] + Vql(Truncate(|items|)) + WireUpTo(lib, v, |items|)
    case Object(json) => Counted(5, lib.render(json))
    case Int(n) => [6] + Vql(ToU32(n))
  }

  /** The first `n` items of an array, one after another. */
  function WireUpTo<S, J>(lib: Libraries<S, J>, v: Value<S, J>, n: nat): seq<byte>
    requires v.Array? && n <= |v.items|
    decreases v, 0, n
  {
    if n == 0 then [] else WireUpTo(lib, v, n - 1) + Wire(lib, v.items[n - 1])
  }

  /** `serialize`, appending to a growing buffer. */
  method Serialize<S, J>(lib: Libraries<S, J>, out: seq<byte>, v: Value<S, J>) returns (out': seq<byte>)
    ensures out' == out + Wire(lib, v)
    decreases v
  {
    match v {
      case Undefined => out' := out + [0];
      case String(text) => out' := PutCounted(out, 1, lib.utf8(text));
      case Buffer(b) => out' := PutCounted(out, 2, b);
      case VsBuffer(b) => out' := PutCounted(out, 3, b);
      case Array(items) =>
        out' := WriteVql(out + [4], Truncate(|items|));
        ghost var header := out';
        for i := 0 to |items|
          invariant out' == header + WireUpTo(lib, v, i)
        {
          out' := Serialize(lib, out', items[i]);
        }
      case Object(json) => out' := PutCounted(out, 5, lib.render(json));
      case Int(n) => out' := WriteVql(out + [6], ToU32(n));
    }
  }

  method PutCounted(out: seq<byte>, tag: byte, payload: seq<byte>) returns (out': seq<byte>)
    ensures out' == out + Counted(tag, payload)
  {
    out' := WriteVql(out + [tag], Truncate(|payload|));
    out' := out' + payload;
  }

  /** A length and that many bytes. */
  function ReadCounted(s: seq<byte>): (r: Parsed<seq<byte>>)
    ensures r.Good? ==> |r.rest| < |s|
  {
    match VqlFrom(s, 0, 0)
    case Bad => Bad
    case Good(n, rest) => TakeBytes(rest, n)
  }

  function ReadValue<S, J>(lib: Libraries<S, J>, s: seq<byte>): (r: Parsed<Value<S, J>>)
    ensures r.Good? ==> |r.rest| < |s|
    decreases |s|, 0, 0
  {
    if s == [] then Bad
    else if s[0] == 0 then Good(Undefined, s[1..])
    else if s[0] == 1 then
      match ReadCounted(s[1..]) case Bad => Bad case Good(b, rest) => Good(String(lib.fromUtf8Lossy(b)), rest)
    else if s[0] == 2 then
      match ReadCounted(s[1..]) case Bad => Bad case Good(b, rest) => Good(Buffer(b), rest)
    else if s[0] == 3 then
      match ReadCounted(s[1..]) case Bad => Bad case Good(b, rest) => Good(VsBuffer(b), rest)
    else if s[0] == 4 then (
      match VqlFrom(s[1..], 0, 0)
      case Bad => Bad
      case Good(n, rest) => match ReadValues(lib, rest, n) case Bad => Bad
          case Good(items, rest') => Good(Array(items), rest'))
    else if s[0] == 5 then (
      match ReadCounted(s[1..])
      case Bad => Bad
      case Good(b, rest) => match lib.parse(b) case None => Bad case Some(json) => Good(Object(json), rest))
    else if s[0] == 6 then
      match VqlFrom(s[1..], 0, 0) case Bad => Bad case Good(n, rest) => Good(Int(ToI32(n)), rest)
    else Bad
  }

  function ReadValues<S, J>(lib: Libraries<S, J>, s: seq<byte>, n: nat): (r: Parsed<seq<Value<S, J>>>)
    ensures r.Good? ==> |r.rest| <= |s|
    decreases |s|, 1, n
  {
    if n == 0 then Good([], s)
    else
      match ReadValue(lib, s)
      case Bad => Bad
      case Good(v, rest) => Behind([v], ReadValues(lib, rest, n - 1))
  }

  function Behind<T>(front: seq<T>, r: Parsed<seq<T>>): Parsed<seq<T>> {
    match r case Bad => Bad case Good(vs, rest) => Good(front + vs, rest)
  }

  lemma BehindNothing<T>(r: Parsed<seq<T>>)
    ensures Behind([], r) == r
  {
    if r.Good? {
      assert [] + r.value == r.value;
    }
  }

  lemma BehindAlso<T>(front: seq<T>, v: T, r: Parsed<seq<T>>)
    ensures Behind(front, Behind([v], r)) == Behind(front + [v], r)
  {
    if r.Good? {
      assert front + ([v] + r.value) == front + [v] + r.value;
    }
  }

  lemma ReadMore<S, J>(lib: Libraries<S, J>, items: seq<Value<S, J>>, s: seq<byte>, n: nat, v: Value<S, J>,
      rest: seq<byte>)
    requires n > 0 && ReadValue(lib, s) == Good(v, rest)
    ensures Behind(items, ReadValues(lib, s, n)) == Behind(items + [v], ReadValues(lib, rest, n - 1))
  {
    BehindAlso(items, v, ReadValues(lib, rest, n - 1));
  }

  lemma ReadNone<S, J>(lib: Libraries<S, J>, items: seq<Value<S, J>>, s: seq<byte>, n: nat)
    requires n > 0
    ensures ReadValue(lib, s).Bad? ==> Behind(items, ReadValues(lib, s, n)).Bad?
  {
  }

  method TakeAt(buf: seq<byte>, pos: nat, n: nat) returns (r: Result<seq<byte>, string>, pos': nat)
    requires pos <= |buf|
    ensures pos <= pos' <= |buf|
    ensures match TakeBytes(buf[pos..], n) case Bad => r.Err? case Good(b, rest) => r == Ok(b) && buf[pos'..] == rest
  {
    if pos + n > |buf| {
      return Err("truncated IPC value"), pos;
    }
    assert buf[pos..][..n] == buf[pos..pos + n] && buf[pos..][n..] == buf[pos + n..];
    r, pos' := Ok(buf[pos..pos + n]), pos + n;
  }

  method CountedAt(buf: seq<byte>, pos: nat) returns (r: Result<seq<byte>, string>, pos': nat)
    requires pos <= |buf|
    ensures pos <= pos' <= |buf|
    ensures match ReadCounted(buf[pos..]) case Bad => r.Err? case Good(b, rest) => r == Ok(b) && buf[pos'..] == rest
  {
    var n;
    n, pos' := ReadVql(buf, pos);
    if n.Err? {
      return Err(n.error), pos';
    }
    r, pos' := TakeAt(buf, pos', n.value);
  }

  /** `deserialize`, moving a cursor over the buffer. */
  method Deserialize<S, J>(lib: Libraries<S, J>, buf: seq<byte>, pos: nat)
    returns (r: Result<Value<S, J>, string>, pos': nat)
    requires pos <= |buf|
    ensures pos <= pos' <= |buf|
    ensures match ReadValue(lib, buf[pos..]) case Bad => r.Err? case Good(v, rest) => r == Ok(v) && buf[pos'..] == rest
    decreases |buf| - pos, 0
  {
    if pos == |buf| {
      return Err("truncated IPC value"), pos;
    }
    var ty := buf[pos];
    pos' := pos + 1;
    assert buf[pos..][1..] == buf[pos'..];
    if ty == 0 {
      r := Ok(Undefined);
    } else if ty == 1 || ty == 2 || ty == 3 || ty == 5 {
      var b;
      b, pos' := CountedAt(buf, pos');
      if b.Err? {
        return Err(b.error), pos';
      }
      if ty == 5 {
        var json := lib.parse(b.value);
        r := if json.Some? then Ok(Object(json.value)) else Err("malformed JSON");
      } else {
        r := Ok(if ty == 1 then String(lib.fromUtf8Lossy(b.value)) else if ty == 2 then Buffer(b.value)
            else VsBuffer(b.value));
      }
    } else if ty == 4 {
      r, pos' := DeserializeArray(lib, buf, pos');
    } else if ty == 6 {
      var n;
      n, pos' := ReadVql(buf, pos');
      r := if n.Ok? then Ok(Int(ToI32(n.value))) else Err(n.error);
    } else {
      r := Err("unknown IPC data type");
    }
  }

  method DeserializeArray<S, J>(lib: Libraries<S, J>, buf: seq<byte>, pos: nat)
    returns (r: Result<Value<S, J>, string>, pos': nat)
    requires pos <= |buf|
    ensures pos <= pos' <= |buf|
    ensures match VqlFrom(buf[pos..], 0, 0)
            case Bad => r.Err?
            case Good(n, rest) =>
              match ReadValues(lib, rest, n)
              case Bad => r.Err?
              case Good(vs, rest') => r == Ok(Array(vs)) && buf[pos'..] == rest'
    decreases |buf| - pos, 1
  {
    var n;
    n, pos' := ReadVql(buf, pos);
    if n.Err? {
      return Err(n.error), pos';
    }
    var items := [];
    ghost var start := buf[pos'..];
    BehindNothing(ReadValues(lib, start, n.value));
    var i := 0;
    while i < n.value
      invariant i <= n.value && pos < pos' <= |buf|
      invariant ReadValues(lib, start, n.value) == Behind(items, ReadValues(lib, buf[pos'..], n.value - i))
    {
      ghost var before := buf[pos'..];
      ReadNone(lib, items, before, n.value - i);
      var v;
      v, pos' := Deserialize(lib, buf, pos');
      if v.Err? {
        return Err(v.error), pos';
      }
      ReadMore(lib, items, before, n.value - i, v.value, buf[pos'..]);
      items := items + [v.value];
      i := i + 1;
    }
    assert items + [] == items;
    assert ReadValues(lib, buf[pos'..], 0) == Good([], buf[pos'..]);
    r := Ok(Array(items));
  }

  // ---- round trip ----------------------------------------------------------------------------

  /** Every length in the value fits its 32-bit field. */
  predicate Fits<S, J>(lib: Libraries<S, J>, v: Value<S, J>) {
    match v
    case Undefined | Int(_) => true
    case String(text) => |lib.utf8(text)| < 0x1_0000_0000
    case Buffer(b) => |b| < 0x1_0000_0000
    case VsBuffer(b) => |b| < 0x1_0000_0000
    case Object(json) => |lib.render(json)| < 0x1_0000_0000
    case Array(items) => |items| < 0x1_0000_0000 && forall i :: 0 <= i < |items| ==> Fits(lib, items[i])
  }

  lemma CountedReads(payload: seq<byte>, tail: seq<byte>)
    requires |payload| < 0x1_0000_0000
    ensures ReadCounted(Vql(Truncate(|payload|)) + payload + tail) == Good(payload, tail)
  {
    var n := Truncate(|payload|);
    TruncateIs(|payload|);
    assert Vql(n) + payload + tail == Vql(n) + (payload + tail);
    VqlRoundTrip(n, payload + tail);
    TakeFront(payload, tail);
  }

  /** With its length cut to 32 bits, only a front of an oversized payload reads back. */
  lemma CountedCut(payload: seq<byte>, tail: seq<byte>)
    requires |payload| >= 0x1_0000_0000
    ensures var n := Truncate(|payload|);
            && n + 0x1_0000_0000 <= |payload|
            && ReadCounted(Vql(n) + payload + tail) == Good(payload[..n], payload[n..] + tail)
  {
    var n := Truncate(|payload|);
    TruncateIs(|payload|);
    assert Vql(n) + payload + tail == Vql(n) + (payload + tail);
    VqlRoundTrip(n, payload + tail);
    assert (payload + tail)[..n] == payload[..n] && (payload + tail)[n..] == payload[n..] + tail;
  }

  lemma CountedFront(tag: byte, payload: seq<byte>, tail: seq<byte>)
    ensures (Counted(tag, payload) + tail)[0] == tag
    ensures (Counted(tag, payload) + tail)[1..] == Vql(Truncate(|payload|)) + payload + tail
  {
  }

  lemma PayloadReadsBack<S(!new), J(!new)>(lib: Libraries<S, J>, v: Value<S, J>, tag: byte, payload: seq<byte>,
      tail: seq<byte>)
    requires Faithful(lib) && |payload| < 0x1_0000_0000
    requires match v
             case String(text) => tag == 1 && payload == lib.utf8(text)
             case Buffer(b) => tag == 2 && payload == b
             case VsBuffer(b) => tag == 3 && payload == b
             case Object(json) => tag == 5 && payload == lib.render(json)
             case _ => false
    ensures ReadValue(lib, Counted(tag, payload) + tail) == Good(v, tail)
  {
    CountedFront(tag, payload, tail);
    CountedReads(payload, tail);
  }

  lemma IntRead<S, J>(lib: Libraries<S, J>, s: seq<byte>, n: u32, rest: seq<byte>)
    requires s != [] && s[0] == 6 && VqlFrom(s[1..], 0, 0) == Good(n, rest)
    ensures ReadValue(lib, s) == Good(Int(ToI32(n)), rest)
  {
  }

  lemma IntReadsBack<S, J>(lib: Libraries<S, J>, n: i32, tail: seq<byte>)
    ensures ReadValue(lib, [6] + Vql(ToU32(n)) + tail) == Good(Int(n), tail)
  {
    var s := [6] + Vql(ToU32(n)) + tail;
    assert s[1..] == Vql(ToU32(n)) + tail;
    VqlRoundTrip(ToU32(n), tail);
    IntRead(lib, s, ToU32(n), tail);
  }

  /** An array reads as its count and then its items. */
  lemma ArrayReads<S, J>(lib: Libraries<S, J>, v: Value<S, J>, tail: seq<byte>)
    requires v.Array?
    ensures ReadValue(lib, Wire(lib, v) + tail)
         == match ReadValues(lib, WireFrom(lib, v, 0) + tail, Truncate(|v.items|))
            case Bad => Bad
            case Good(items, rest) => Good(Array(items), rest)
  {
    var n, rest := Truncate(|v.items|), WireFrom(lib, v, 0) + tail;
    FromStart(lib, v);
    var s := Wire(lib, v) + tail;
    assert s == [4] + (Vql(n) + rest);
    assert s[1..] == Vql(n) + rest;
    VqlRoundTrip(n, rest);
  }

  /** Decoding inverts encoding, and leaves exactly what follows. */
  lemma {:induction false} ReadsBack<S(!new), J(!new)>(lib: Libraries<S, J>, v: Value<S, J>, tail: seq<byte>)
    requires Faithful(lib) && Fits(lib, v)
    ensures ReadValue(lib, Wire(lib, v) + tail) == Good(v, tail)
    decreases v, 0
  {
    match v {
      case Undefined => assert ([0] + tail)[1..] == tail;
      case String(text) => PayloadReadsBack(lib, v, 1, lib.utf8(text), tail);
      case Buffer(b) => PayloadReadsBack(lib, v, 2, b, tail);
      case VsBuffer(b) => PayloadReadsBack(lib, v, 3, b, tail);
      case Object(json) => PayloadReadsBack(lib, v, 5, lib.render(json), tail);
      case Int(n) => IntReadsBack(lib, n, tail);
      case Array(items) =>
        ArrayReads(lib, v, tail);
        TruncateIs(|items|);
        ItemsReadBack(lib, v, 0, tail);
        assert items[0..] == items;
    }
  }

  /** The items of an array from the `i`-th on. */
  function WireFrom<S, J>(lib: Libraries<S, J>, v: Value<S, J>, i: nat): seq<byte>
    requires v.Array? && i <= |v.items|
    decreases |v.items| - i
  {
    if i == |v.items| then [] else Wire(lib, v.items[i]) + WireFrom(lib, v, i + 1)
  }

  lemma Regrouped(a: seq<byte>, b: seq<byte>, c: seq<byte>)
    ensures a + (b + c) == a + b + c
  {
  }

  lemma {:induction false} FromAll<S, J>(lib: Libraries<S, J>, v: Value<S, J>, i: nat)
    requires v.Array? && i <= |v.items|
    ensures WireUpTo(lib, v, i) + WireFrom(lib, v, i) == WireUpTo(lib, v, |v.items|)
    decreases |v.items| - i
  {
    if i == |v.items| {
    } else {
      FromAll(lib, v, i + 1);
      Regrouped(WireUpTo(lib, v, i), Wire(lib, v.items[i]), WireFrom(lib, v, i + 1));
    }
  }

  lemma FromStart<S, J>(lib: Libraries<S, J>, v: Value<S, J>)
    requires v.Array?
    ensures WireUpTo(lib, v, |v.items|) == WireFrom(lib, v, 0)
  {
    FromAll(lib, v, 0);
  }

  lemma {:induction false} ItemsReadBack<S(!new), J(!new)>(lib: Libraries<S, J>, v: Value<S, J>, i: nat,
      tail: seq<byte>)
    requires Faithful(lib) && v.Array? && i <= |v.items| && forall j :: 0 <= j < |v.items| ==> Fits(lib, v.items[j])
    ensures ReadValues(lib, WireFrom(lib, v, i) + tail, |v.items| - i) == Good(v.items[i..], tail)
    decreases v, 0, |v.items| - i
  {
    if i < |v.items| {
      var rest := WireFrom(lib, v, i + 1) + tail;
      assert WireFrom(lib, v, i) + tail == Wire(lib, v.items[i]) + rest;
      ReadsBack(lib, v.items[i], rest);
      ItemsReadBack(lib, v, i + 1, tail);
      assert v.items[i..] == [v.items[i]] + v.items[i + 1..];
    } else {
      assert WireFrom(lib, v, i) + tail == tail && v.items[i..] == [];
    }
  }

  lemma PayloadMisreads<S(!new), J(!new)>(lib: Libraries<S, J>, v: Value<S, J>, tag: byte, payload: seq<byte>,
      tail: seq<byte>)
    requires CutsShow(lib) && |payload| >= 0x1_0000_0000
    requires match v
             case String(text) => tag == 1 && payload == lib.utf8(text)
             case Buffer(b) => tag == 2 && payload == b
             case VsBuffer(b) => tag == 3 && payload == b
             case Object(json) => tag == 5 && payload == lib.render(json)
             case _ => false
    ensures var r := ReadValue(lib, Counted(tag, payload) + tail); r.Good? ==> r.value != v
  {
    CountedFront(tag, payload, tail);
    CountedCut(payload, tail);
    var cut := payload[..Truncate(|payload|)];
    assert |cut| < |payload|;
  }

  /** A value with a length that does not fit never reads back. */
  lemma {:induction false} MisreadsOversized<S(!new), J(!new)>(lib: Libraries<S, J>, v: Value<S, J>, tail: seq<byte>)
    requires Faithful(lib) && CutsShow(lib) && !Fits(lib, v)
    ensures var r := ReadValue(lib, Wire(lib, v) + tail); r.Good? ==> r.value != v
    decreases v, 0
  {
    match v {
      case String(text) => PayloadMisreads(lib, v, 1, lib.utf8(text), tail);
      case Buffer(b) => PayloadMisreads(lib, v, 2, b, tail);
      case VsBuffer(b) => PayloadMisreads(lib, v, 3, b, tail);
      case Object(json) => PayloadMisreads(lib, v, 5, lib.render(json), tail);
      case Array(items) =>
        ArrayReads(lib, v, tail);
        TruncateIs(|items|);
        ValuesCount(lib, WireFrom(lib, v, 0) + tail, Truncate(|items|));
        if |items| < 0x1_0000_0000 {
          ItemsMisread(lib, v, 0, tail);
          assert items[0..] == items;
        }
    }
  }

  lemma {:induction false} ValuesCount<S, J>(lib: Libraries<S, J>, s: seq<byte>, n: nat)
    ensures var r := ReadValues(lib, s, n); r.Good? ==> |r.value| == n
    decreases n
  {
    if n > 0 && ReadValue(lib, s).Good? {
      ValuesCount(lib, ReadValue(lib, s).rest, n - 1);
    }
  }

  /** If `items` can be read from `s` at all, something else is read. */
  predicate Misread<S(==), J(==)>(lib: Libraries<S, J>, s: seq<byte>, items: seq<Value<S, J>>) {
    var rs := ReadValues(lib, s, |items|); rs.Good? ==> rs.value != items
  }

  lemma FirstMisread<S, J>(lib: Libraries<S, J>, s: seq<byte>, items: seq<Value<S, J>>)
    requires items != [] && (ReadValue(lib, s).Good? ==> ReadValue(lib, s).value != items[0])
    ensures Misread(lib, s, items)
  {
  }

  lemma RestMisread<S, J>(lib: Libraries<S, J>, s: seq<byte>, rest: seq<byte>, items: seq<Value<S, J>>)
    requires items != [] && ReadValue(lib, s) == Good(items[0], rest) && Misread(lib, rest, items[1..])
    ensures Misread(lib, s, items)
  {
    var rs := ReadValues(lib, s, |items|);
    if rs.Good? {
      assert rs.value[1..] == ReadValues(lib, rest, |items| - 1).value;
    }
  }

  ghost predicate LaterOversized<S, J>(lib: Libraries<S, J>, items: seq<Value<S, J>>, i: nat) {
    exists j :: i <= j < |items| && !Fits(lib, items[j])
  }

  lemma WireSplit<S, J>(lib: Libraries<S, J>, v: Value<S, J>, i: nat, tail: seq<byte>)
    requires v.Array? && i < |v.items|
    ensures WireFrom(lib, v, i) + tail == Wire(lib, v.items[i]) + (WireFrom(lib, v, i + 1) + tail)
    ensures v.items[i..][0] == v.items[i] && v.items[i..][1..] == v.items[i + 1..]
  {
  }

  lemma {:induction false} ItemsMisread<S(!new), J(!new)>(lib: Libraries<S, J>, v: Value<S, J>, i: nat, tail: seq<byte>)
    requires Faithful(lib) && CutsShow(lib) && v.Array? && i <= |v.items| && LaterOversized(lib, v.items, i)
    ensures Misread(lib, WireFrom(lib, v, i) + tail, v.items[i..])
    decreases v, 0, |v.items| - i
  {
    var rest := WireFrom(lib, v, i + 1) + tail;
    WireSplit(lib, v, i, tail);
    if Fits(lib, v.items[i]) {
      ReadsBack(lib, v.items[i], rest);
      assert LaterOversized(lib, v.items, i + 1);
      ItemsMisread(lib, v, i + 1, tail);
      RestMisread(lib, WireFrom(lib, v, i) + tail, rest, v.items[i..]);
    } else {
      MisreadsOversized(lib, v.items[i], rest);
      FirstMisread(lib, WireFrom(lib, v, i) + tail, v.items[i..]);
    }
  }

  /** A value survives the wire exactly when every length in it is below 2^32. */
  lemma RoundTrip<S(!new), J(!new)>(lib: Libraries<S, J>, v: Value<S, J>, tail: seq<byte>)
    requires Faithful(lib) && CutsShow(lib)
    ensures ReadValue(lib, Wire(lib, v) + tail) == Good(v, tail) <==> Fits(lib, v)
  {
    if Fits(lib, v) {
      ReadsBack(lib, v, tail);
    } else {
      MisreadsOversized(lib, v, tail);
    }
  }

  // ---- messages ------------------------------------------------------------------------------

  datatype Message<S, J> = Message(header: Value<S, J>, body: Value<S, J>)

  /** `encode_message`. */
  method EncodeMessage<S, J>(lib: Libraries<S, J>, m: Message<S, J>) returns (out: seq<byte>)
    ensures out == Wire(lib, m.header) + Wire(lib, m.body)
  {
    out := Serialize(lib, [], m.header);
    out := Serialize(lib, out, m.body);
  }

  function MessageOf<S, J>(lib: Libraries<S, J>, buf: seq<byte>): Option<Message<S, J>> {
    match ReadValue(lib, buf)
    case Bad => None
    case Good(header, rest) =>
      if rest == [] then Some(Message(header, Undefined))
      else match ReadValue(lib, rest) case Bad => None case Good(body, _) => Some(Message(header, body))
  }

  /** `decode_message`; a missing body reads as `Undefined`. */
  method DecodeMessage<S, J>(lib: Libraries<S, J>, buf: seq<byte>) returns (r: Option<Message<S, J>>)
    ensures r == MessageOf(lib, buf)
  {
    assert buf[0..] == buf;
    var header, pos := Deserialize(lib, buf, 0);
    if header.Err? {
      return None;
    }
    if pos == |buf| {
      return Some(Message(header.value, Undefined));
    }
    var body;
    body, pos := Deserialize(lib, buf, pos);
    r := if body.Err? then None else Some(Message(header.value, body.value));
  }

  /** Decoding a message inverts encoding it exactly when both parts fit. */
  lemma MessageRoundTrip<S(!new), J(!new)>(lib: Libraries<S, J>, m: Message<S, J>)
    requires Faithful(lib) && CutsShow(lib)
    ensures MessageOf(lib, Wire(lib, m.header) + Wire(lib, m.body)) == Some(m)
       <==> Fits(lib, m.header) && Fits(lib, m.body)
  {
    RoundTrip(lib, m.header, Wire(lib, m.body));
    RoundTrip(lib, m.body, []);
    assert Wire(lib, m.body) + [] == Wire(lib, m.body);
    if !Fits(lib, m.header) {
      MisreadsOversized(lib, m.header, Wire(lib, m.body));
    } else if !Fits(lib, m.body) {
      MisreadsOversized(lib, m.body, []);
    }
  }
}
