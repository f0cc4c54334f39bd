/** Reading values off the front of a byte string, as the codecs' cursors do. */
module Parsing {
  import opened Wrappers
  import opened Bytes

  /** A value and the bytes after it, or a malformed input. */
  datatype Parsed<+T> = Bad | Good(value: T, rest: seq<byte>)

  /** The next `n` bytes. */
  function TakeBytes(s: seq<byte>, n: nat): (r: Parsed<seq<byte>>)
    ensures r.Good? ==> |r.rest| == |s| - n
  {
    if n <= |s| then Good(s[..n], s[n..]) else Bad
  }

  lemma TakeFront(a: seq<byte>, tail: seq<byte>)
    ensures TakeBytes(a + tail, |a|) == Good(a, tail)
  {
  }

  /** Text and JSON libraries, as far as the codecs use them. */
  datatype Libraries<!S, !J> = Libraries(
    utf8: S -> seq<byte>,
    fromUtf8Lossy: seq<byte> -> S,
    render: J -> seq<byte>,
    parse: seq<byte> -> Option<J>,
    renderList: seq<J> -> seq<byte>,
    parseList: seq<byte> -> Option<seq<J>>)

  /** Encoding text or JSON and decoding it again gives it back. */
  ghost predicate Faithful<S(!new), J(!new)>(lib: Libraries<S, J>) {
    && (forall s :: lib.fromUtf8Lossy(lib.utf8(s)) == s)
    && (forall v :: lib.parse(lib.render(v)) == Some(v))
    && (forall vs :: lib.parseList(lib.renderList(vs)) == Some(vs))
  }

  /** Text or JSON cut short by 4 GiB or more does not decode to the same value. */
  ghost predicate CutsShow<S(!new), J(!new)>(lib: Libraries<S, J>) {
    && (forall s, n :: 0 <= n && n + 0x1_0000_0000 <= |lib.utf8(s)| ==> lib.fromUtf8Lossy(lib.utf8(s)[..n]) != s)
    && (forall v, n :: 0 <= n && n + 0x1_0000_0000 <= |lib.render(v)| ==> lib.parse(lib.render(v)[..n]) != Some(v))
    && (forall vs, n :: 0 <= n && n + 0x1_0000_0000 <= |lib.renderList(vs)| ==>
        lib.parseList(lib.renderList(vs)[..n]) != Some(vs))
  }

  lemma TruncateIs(n: nat)
    ensures n < 0x1_0000_0000 ==> Truncate(n) == n
    ensures n >= 0x1_0000_0000 ==> Truncate(n) + 0x1_0000_0000 <= n
  {
  }
}
