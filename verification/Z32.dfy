/** z-base-32 keys (`ember/hub/src/z32.rs`). */
module Z32 {
  import opened Wrappers
  import opened Bytes

  const ALPHABET: string := "ybndrfg8ejkmcpqxot1uwisza345h769"

  type digit = d: int | 0 <= d < 32

  const POWERS: seq<nat> := [1, 2, 4, 8, 16, 32, 64, 128, 256, 512, 1024, 2048, 4096]

  /** 2^bits, for the at most 12 bits the buffer ever holds. */
  function Pow2(bits: nat): (p: nat)
    requires bits <= 12
    ensures p > 0
  {
    POWERS[bits]
  }

  // ---- numbers in base 256 and base 32 -------------------------------------------------------

  /** The number a byte string spells, most significant byte first. */
  function Number256(bytes: seq<byte>): nat {
    if bytes == [] then 0 else Number256(bytes[..|bytes| - 1]) * 256 + bytes[|bytes| - 1]
  }

  /** The number a digit string spells, most significant digit first. */
  function Number32(digits: seq<digit>): nat {
    if digits == [] then 0 else Number32(digits[..|digits| - 1]) * 32 + digits[|digits| - 1]
  }

  lemma {:induction false} Injective256(a: seq<byte>, b: seq<byte>)
    requires |a| == |b| && Number256(a) == Number256(b)
    ensures a == b
  {
    if a == [] {
    } else {
      var n := |a| - 1;
      assert Number256(a) % 256 == a[n] && Number256(b) % 256 == b[n];
      Injective256(a[..n], b[..n]);
      assert a == a[..n] + [a[n]] && b == b[..n] + [b[n]];
    }
  }

  lemma {:induction false} Injective32(a: seq<digit>, b: seq<digit>)
    requires |a| == |b| && Number32(a) == Number32(b)
    ensures a == b
  {
    if a == [] {
    } else {
      var n := |a| - 1;
      assert Number32(a) % 32 == a[n] && Number32(b) % 32 == b[n];
      Injective32(a[..n], b[..n]);
      assert a == a[..n] + [a[n]] && b == b[..n] + [b[n]];
    }
  }

  lemma Append256(a: seq<byte>, b: byte)
    ensures Number256(a + [b]) == Number256(a) * 256 + b as int
  {
    assert (a + [b])[..|a|] == a;
  }

  lemma Append32(a: seq<digit>, d: digit)
    ensures Number32(a + [d]) == Number32(a) * 32 + d as int
  {
    assert (a + [d])[..|a|] == a;
  }

  // ---- the alphabet --------------------------------------------------------------------------

  function Letter(d: digit): char {
    ALPHABET[d]
  }

  /** `ALPHABET.iter().position(...)`. */
  function Position(c: char, from: nat): (r: Option<digit>)
    requires from <= 32
    ensures r.Some? ==> from <= r.value && ALPHABET[r.value] == c
    ensures r.None? ==> forall i :: from <= i < 32 ==> ALPHABET[i] != c
    decreases 32 - from
  {
    if from == 32 then None
    else if ALPHABET[from] == c then Some(from)
    else Position(c, from + 1)
  }

  function Letters(ds: seq<digit>): (s: string)
    ensures |s| == |ds| && forall i :: 0 <= i < |ds| ==> s[i] == Letter(ds[i])
  {
    seq(|ds|, i requires 0 <= i < |ds| => Letter(ds[i]))
  }

  lemma AlphabetDistinct()
    ensures forall i, j :: 0 <= i < j < 32 ==> ALPHABET[i] != ALPHABET[j]
  {
  }

  lemma LetterPosition(d: digit)
    ensures Position(Letter(d), 0) == Some(d)
  {
    AlphabetDistinct();
  }

  // ---- encoding ------------------------------------------------------------------------------

  /** The digits that spell `bytes` followed by `pad` zero bits. */
  predicate Spells(ds: seq<digit>, bytes: seq<byte>, pad: nat) {
    && pad < 5 && 5 * |ds| == 8 * |bytes| + pad
    && Number32(ds) == Number256(bytes) * Pow2(pad)
  }

  /** Shifting a byte in below a number whose low `bits` bits are the buffer. */
  lemma ShiftEight(n: nat, bits: nat, buffer: nat, b: byte)
    requires bits < 5 && buffer < Pow2(bits)
    ensures (n * Pow2(bits) + buffer) * 256 + b as int == n * Pow2(bits + 8) + (buffer * 256 + b as int)
    ensures buffer * 256 + b as int < Pow2(bits + 8) <= 4096
  {
    if bits == 0 {} else if bits == 1 {} else if bits == 2 {} else if bits == 3 {} else {}
  }

  lemma TimesAtMost(a: nat, b: nat, m: nat)
    requires a <= b
    ensures a * m <= b * m
  {
    assert (b - a) * m >= 0;
  }

  /** A quotient and a remainder below the divisor are the ones division gives. */
  lemma Divides(x: nat, m: nat, h: nat, r: nat)
    requires r < m && x == h * m + r
    ensures x % m == r
  {
    var k := x / m;
    assert x == k * m + x % m;
    if h < k {
      TimesAtMost(h + 1, k, m);
    } else if k < h {
      TimesAtMost(k + 1, h, m);
    }
  }

  // A number's low bits, cut into five and the rest, for each width the buffer can have.
  lemma Cut1(b: nat)
    ensures b % 32 == b / 1 % 32 * 1 + b % 1
  {
    Divides(b, 32, b / 1 / 32, b / 1 % 32 * 1 + b % 1);
  }

  lemma Cut2(b: nat)
    ensures b % 64 == b / 2 % 32 * 2 + b % 2
  {
    Divides(b, 64, b / 2 / 32, b / 2 % 32 * 2 + b % 2);
  }

  lemma Cut4(b: nat)
    ensures b % 128 == b / 4 % 32 * 4 + b % 4
  {
    Divides(b, 128, b / 4 / 32, b / 4 % 32 * 4 + b % 4);
  }

  lemma Cut8(b: nat)
    ensures b % 256 == b / 8 % 32 * 8 + b % 8
  {
    Divides(b, 256, b / 8 / 32, b / 8 % 32 * 8 + b % 8);
  }

  lemma Cut16(b: nat)
    ensures b % 512 == b / 16 % 32 * 16 + b % 16
  {
    Divides(b, 512, b / 16 / 32, b / 16 % 32 * 16 + b % 16);
  }

  lemma Cut32(b: nat)
    ensures b % 1024 == b / 32 % 32 * 32 + b % 32
  {
    Divides(b, 1024, b / 32 / 32, b / 32 % 32 * 32 + b % 32);
  }

  lemma Cut64(b: nat)
    ensures b % 2048 == b / 64 % 32 * 64 + b % 64
  {
    Divides(b, 2048, b / 64 / 32, b / 64 % 32 * 64 + b % 64);
  }

  lemma Cut128(b: nat)
    ensures b % 4096 == b / 128 % 32 * 128 + b % 128
  {
    Divides(b, 4096, b / 128 / 32, b / 128 % 32 * 128 + b % 128);
  }

  lemma SplitLowBits(bits: nat, buffer: nat)
    requires 5 <= bits <= 8
    ensures Pow2(bits) == 32 * Pow2(bits - 5)
    ensures buffer % Pow2(bits) == buffer / Pow2(bits - 5) % 32 * Pow2(bits - 5) + buffer % Pow2(bits - 5)
  {
    match bits {
      case 5 => Cut1(buffer);
      case 6 => Cut2(buffer);
      case 7 => Cut4(buffer);
      case 8 => Cut8(buffer);
    }
  }

  lemma SplitHighBits(bits: nat, buffer: nat)
    requires 9 <= bits <= 12
    ensures Pow2(bits) == 32 * Pow2(bits - 5)
    ensures buffer % Pow2(bits) == buffer / Pow2(bits - 5) % 32 * Pow2(bits - 5) + buffer % Pow2(bits - 5)
  {
    match bits {
      case 9 => Cut16(buffer);
      case 10 => Cut32(buffer);
      case 11 => Cut64(buffer);
      case 12 => Cut128(buffer);
    }
  }

  lemma Distribute(n: nat, d: nat, p: nat)
    ensures n * (32 * p) + d * p == (n * 32 + d) * p
  {
  }

  /** Moving the top five of the buffer's `bits` bits over to the number. */
  lemma TakeFive(n: nat, bits: nat, buffer: nat)
    requires 5 <= bits <= 12
    ensures n * Pow2(bits) + buffer % Pow2(bits)
         == (n * 32 + buffer / Pow2(bits - 5) % 32) * Pow2(bits - 5) + buffer % Pow2(bits - 5)
  {
    if bits <= 8 {
      SplitLowBits(bits, buffer);
    } else {
      SplitHighBits(bits, buffer);
    }
    Distribute(n, buffer / Pow2(bits - 5) % 32, Pow2(bits - 5));
  }

  /** The last digit is the buffer moved to the top, its low bits zero. */
  lemma LastDigit(n: nat, bits: nat, buffer: nat)
    requires 0 < bits < 5 && buffer < Pow2(bits)
    ensures buffer * Pow2(5 - bits) < 32
    ensures (n * Pow2(bits) + buffer) * Pow2(5 - bits) == n * 32 + buffer * Pow2(5 - bits)
  {
    if bits == 1 {} else if bits == 2 {} else if bits == 3 {} else {}
  }

  /** The digits so far and the low `bits` bits of the buffer spell `number`. */
  predicate Spelled(number: nat, ds: seq<digit>, bits: nat, buffer: nat)
    requires bits <= 12
  {
    number == Number32(ds) * Pow2(bits) + buffer % Pow2(bits)
  }

  /** The inner loop of `encode`: move whole digits out of the buffer. */
  method MoveDigits(s: string, ghost ds: seq<digit>, buffer: u32, bits: nat, ghost number: nat)
    returns (s': string, ghost ds': seq<digit>, bits': nat)
    requires bits <= 12 && s == Letters(ds) && Spelled(number, ds, bits, buffer)
    ensures bits' < 5 && 5 * |ds'| + bits' == 5 * |ds| + bits
    ensures s' == Letters(ds') && Spelled(number, ds', bits', buffer)
  {
    s', ds', bits' := s, ds, bits;
    while bits' >= 5
      invariant bits' <= 12 && 5 * |ds'| + bits' == 5 * |ds| + bits
      invariant s' == Letters(ds') && Spelled(number, ds', bits', buffer)
    {
      var d := buffer / Pow2(bits' - 5) % 32;
      TakeFive(Number32(ds'), bits', buffer);
      Append32(ds', d);
      s' := s' + [ALPHABET[d]];
      ds' := ds' + [d];
      bits' := bits' - 5;
    }
  }

  /** `ds` spells `bytes` but for the `bits` bits still in the buffer. */
  predicate Behind(bytes: seq<byte>, ds: seq<digit>, bits: nat, buffer: nat) {
    && bits < 5 && buffer < Pow2(bits) && 5 * |ds| + bits == 8 * |bytes|
    && Number256(bytes) == Number32(ds) * Pow2(bits) + buffer
  }

  lemma NextByte(bytes: seq<byte>, ds: seq<digit>, bits: nat, buffer: nat, b: byte)
    requires Behind(bytes, ds, bits, buffer)
    ensures buffer * 256 + b as int < 4096 && Spelled(Number256(bytes + [b]), ds, bits + 8, buffer * 256 + b as int)
  {
    Append256(bytes, b);
    ShiftEight(Number32(ds), bits, buffer, b);
    SmallMod(buffer * 256 + b as int, Pow2(bits + 8));
  }

  lemma SmallMod(x: nat, m: nat)
    requires x < m
    ensures x % m == x
  {
  }

  lemma Moved(bytes: seq<byte>, ds: seq<digit>, bits: nat, buffer: nat)
    requires bits < 5 && 5 * |ds| + bits == 8 * |bytes| && Spelled(Number256(bytes), ds, bits, buffer)
    ensures Behind(bytes, ds, bits, buffer % Pow2(bits))
  {
  }

  lemma Finish(bytes: seq<byte>, ds: seq<digit>, bits: nat, buffer: nat)
    requires Behind(bytes, ds, bits, buffer)
    ensures bits == 0 ==> Spells(ds, bytes, Padding(|bytes|))
    ensures bits > 0 ==> Spells(ds + [buffer * Pow2(5 - bits) % 32], bytes, Padding(|bytes|))
  {
    PaddingIs(|bytes|, |ds|, bits);
    if bits > 0 {
      LastDigit(Number32(ds), bits, buffer);
      SmallMod(buffer * Pow2(5 - bits), 32);
      Append32(ds, buffer * Pow2(5 - bits));
    }
  }

  lemma PaddingIs(bytes: nat, digits: nat, bits: nat)
    requires bits < 5 && 5 * digits + bits == 8 * bytes
    ensures Padding(bytes) == if bits == 0 then 0 else 5 - bits
  {
    assert 8 * bytes % 5 == bits;
  }

  /** The padding a whole number of digits needs. */
  function Padding(bytes: nat): nat {
    (5 - 8 * bytes % 5) % 5
  }

  /** One turn of `encode`'s outer loop. */
  method AddByte(s: string, ghost ds: seq<digit>, buffer: u32, bits: nat, ghost bytes: seq<byte>, b: byte)
    returns (s': string, ghost ds': seq<digit>, buffer': u32, bits': nat)
    requires s == Letters(ds) && Behind(bytes, ds, bits, buffer)
    ensures s' == Letters(ds') && Behind(bytes + [b], ds', bits', buffer')
  {
    NextByte(bytes, ds, bits, buffer, b);
    var filled := buffer * 256 + b;
    s', ds', bits' := MoveDigits(s, ds, filled, bits + 8, Number256(bytes + [b]));
    Moved(bytes + [b], ds', bits', filled);
    buffer' := filled % Pow2(bits');
  }

  /** `s` is `bytes` and the fewest zero bits that fill its last letter. */
  ghost predicate Spelling(s: string, bytes: seq<byte>) {
    exists ds: seq<digit> :: s == Letters(ds) && Spells(ds, bytes, Padding(|bytes|))
  }

  /** `encode`; the bit buffer is a `u32` and never needs more than 12 of its bits. */
  method Encode(bytes: seq<byte>) returns (s: string)
    ensures Spelling(s, bytes)
  {
    s := "";
    ghost var ds: seq<digit> := [];
    var buffer: u32, bits := 0, 0;
    for i := 0 to |bytes|
      invariant s == Letters(ds) && Behind(bytes[..i], ds, bits, buffer)
    {
      assert bytes[..i + 1] == bytes[..i] + [bytes[i]];
      s, ds, buffer, bits := AddByte(s, ds, buffer, bits, bytes[..i], bytes[i]);
    }
    assert bytes[..|bytes|] == bytes;
    s, ds := Flush(s, ds, buffer, bits, bytes);
  }

  /** What is left in the buffer becomes the top bits of one more digit. */
  method Flush(s: string, ghost ds: seq<digit>, buffer: u32, bits: nat, ghost bytes: seq<byte>)
    returns (s': string, ghost ds': seq<digit>)
    requires s == Letters(ds) && Behind(bytes, ds, bits, buffer)
    ensures s' == Letters(ds') && Spells(ds', bytes, Padding(|bytes|))
  {
    s', ds' := s, ds;
    Finish(bytes, ds, bits, buffer);
    if bits > 0 {
      var last := buffer * Pow2(5 - bits) % 32;
      s' := s' + [ALPHABET[last]];
      ds' := ds' + [last];
    }
  }

  // ---- decoding ------------------------------------------------------------------------------

  const KEY_LEN: nat := 32
  const KEY_CHARS: nat := 52

  /** The one string of 52 letters that spells a key, if `s` is such a string. */
  ghost predicate Canonical(s: string, key: seq<byte>) {
    |key| == KEY_LEN && Spelling(s, key)
  }

  /** `decode_key`. */
  method DecodeKey(s: string) returns (r: Option<seq<byte>>)
    ensures r.Some? ==> Canonical(s, r.value)
    ensures r.None? ==> forall key :: !Canonical(s, key)
  {
    if |s| != KEY_CHARS {
      return None;
    }
    var out: seq<byte> := [];
    ghost var ds: seq<digit> := [];
    var buffer: u32 := 0;
    var bits := 0;
    for i := 0 to |s|
      invariant |ds| == i && s[..i] == Letters(ds)
      invariant bits < 8 && Read(out, ds, bits, buffer)
    {
      var p := Position(s[i], 0);
      if p.None? {
        NotALetter(s, i);
        return None;
      }
      out, bits, buffer := AddDigit(out, ds, bits, buffer, p.value);
      ds := ds + [p.value];
    }
    assert s[..|s|] == s;
    assert Padding(KEY_LEN) == 4;
    if |out| == KEY_LEN && buffer == 0 {
      assert Spells(ds, out, 4);
      r := Some(out);
    } else {
      NotZeroPadded(s, ds, out, buffer);
      r := None;
    }
  }

  /** One turn of `decode_key`'s loop. */
  method AddDigit(out: seq<byte>, ghost ds: seq<digit>, bits: nat, buffer: u32, v: digit)
    returns (out': seq<byte>, bits': nat, buffer': u32)
    requires bits < 8 && Read(out, ds, bits, buffer)
    ensures bits' < 8 && Read(out', ds + [v], bits', buffer')
  {
    ReadDigit(out, ds, bits, buffer, v);
    out', bits', buffer' := out, bits + 5, buffer * 32 + v;
    if bits' >= 8 {
      ReadByte(out, ds + [v], bits', buffer');
      out' := out' + [buffer' / Pow2(bits' - 8) % 256];
      bits' := bits' - 8;
      buffer' := buffer' % Pow2(bits');
    }
  }

  /** `ds` has been read into `out` and the `bits` bits of the buffer. */
  predicate Read(out: seq<byte>, ds: seq<digit>, bits: nat, buffer: nat) {
    && bits <= 12 && buffer < Pow2(bits) && 8 * |out| + bits == 5 * |ds|
    && Number32(ds) == Number256(out) * Pow2(bits) + buffer
  }

  lemma ReadDigit(out: seq<byte>, ds: seq<digit>, bits: nat, buffer: nat, v: digit)
    requires bits < 8 && Read(out, ds, bits, buffer)
    ensures buffer * 32 + v as int < 4096 && Read(out, ds + [v], bits + 5, buffer * 32 + v as int)
  {
    Append32(ds, v);
    ShiftFive(Number256(out), bits, buffer, v);
  }

  lemma ReadByte(out: seq<byte>, ds: seq<digit>, bits: nat, buffer: nat)
    requires 8 <= bits && Read(out, ds, bits, buffer)
    ensures Read(out + [buffer / Pow2(bits - 8) % 256], ds, bits - 8, buffer % Pow2(bits - 8))
  {
    TakeEight(Number256(out), bits, buffer);
    Append256(out, buffer / Pow2(bits - 8) % 256);
  }

  lemma ShiftFive(n: nat, bits: nat, buffer: nat, v: digit)
    requires bits < 8 && buffer < Pow2(bits)
    ensures (n * Pow2(bits) + buffer) * 32 + v as int == n * Pow2(bits + 5) + (buffer * 32 + v as int)
    ensures buffer * 32 + v as int < Pow2(bits + 5) <= 4096
  {
    if bits == 0 {} else if bits == 1 {} else if bits == 2 {} else if bits == 3 {}
    else if bits == 4 {} else if bits == 5 {} else if bits == 6 {} else {}
  }

  lemma TakeEight(n: nat, bits: nat, buffer: nat)
    requires 8 <= bits <= 12 && buffer < Pow2(bits)
    ensures n * Pow2(bits) + buffer
         == (n * 256 + buffer / Pow2(bits - 8) % 256) * Pow2(bits - 8) + buffer % Pow2(bits - 8)
  {
    if bits == 8 {} else if bits == 9 {} else if bits == 10 {} else if bits == 11 {} else {}
  }

  lemma NotALetter(s: string, i: nat)
    requires i < |s| && Position(s[i], 0).None?
    ensures forall key :: !Canonical(s, key)
  {
    forall ds: seq<digit>
      ensures s != Letters(ds)
    {
      if |ds| == |s| {
        assert Letters(ds)[i] == ALPHABET[ds[i]];
      }
    }
  }

  lemma NotZeroPadded(s: string, ds: seq<digit>, out: seq<byte>, buffer: nat)
    requires s == Letters(ds)
    requires Number32(ds) == Number256(out) * 16 + buffer && 0 < buffer < 16
    ensures forall key :: !Canonical(s, key)
  {
    assert Padding(KEY_LEN) == 4;
    forall key: seq<byte>, es: seq<digit> | s == Letters(es)
      ensures !Spells(es, key, 4)
    {
      LettersInjective(ds, es);
      NotSpelled(ds, key, out, buffer);
    }
  }

  lemma NotSpelled(ds: seq<digit>, key: seq<byte>, out: seq<byte>, buffer: nat)
    requires Number32(ds) == Number256(out) * 16 + buffer && 0 < buffer < 16
    ensures !Spells(ds, key, 4)
  {
    assert Number256(key) * 16 != Number256(out) * 16 + buffer;
  }

  lemma LettersInjective(a: seq<digit>, b: seq<digit>)
    requires Letters(a) == Letters(b)
    ensures a == b
  {
    forall i | 0 <= i < |a|
      ensures a[i] == b[i]
    {
      assert Letter(a[i]) == Letters(a)[i] == Letters(b)[i] == Letter(b[i]);
      LetterPosition(a[i]);
      LetterPosition(b[i]);
    }
  }

  /** Each key has exactly one spelling and each spelling one key. */
  lemma CanonicalBijective(s: string, t: string, key: seq<byte>, other: seq<byte>)
    requires Canonical(s, key) && Canonical(t, other)
    ensures s == t <==> key == other
  {
    assert Padding(KEY_LEN) == 4;
    var a: seq<digit> :| s == Letters(a) && Spells(a, key, 4);
    var b: seq<digit> :| t == Letters(b) && Spells(b, other, 4);
    if s == t {
      LettersInjective(a, b);
      Injective256(key, other);
    }
    if key == other {
      Injective32(a, b);
    }
  }

  /** Decoding inverts encoding for every 32-byte key. */
  method DecodeEncoded(key: seq<byte>) returns (r: Option<seq<byte>>)
    requires |key| == KEY_LEN
    ensures r == Some(key)
  {
    var s := Encode(key);
    assert Canonical(s, key);
    r := DecodeKey(s);
    CanonicalBijective(s, s, r.value, key);
  }

  /** Whatever decodes is the encoding of what it decodes to. */
  method EncodeDecoded(s: string) returns (r: Option<seq<byte>>, t: string)
    ensures r.Some? ==> t == s
  {
    r := DecodeKey(s);
    t := "";
    if r.Some? {
      t := Encode(r.value);
      assert Canonical(t, r.value);
      CanonicalBijective(s, t, r.value, r.value);
    }
  }
}
