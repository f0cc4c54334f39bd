/** Lines, their joined text, and UTF-16 columns (section 2.1 of RFC 2781). */
module Text {
  import opened Wrappers

  // ---- UTF-16 --------------------------------------------------------------------------------

  /** `char::len_utf16`: a scalar above U+FFFF takes a surrogate pair. */
  function Width(c: char): (w: nat)
    ensures w == 1 || w == 2
  {
    if c as int < 0x1_0000 then 1 else 2
  }

  /** The number of UTF-16 code units in `s`. */
  function Units(s: string): nat {
    if s == "" then 0 else Width(s[0]) + Units(s[1..])
  }

  lemma {:induction false} UnitsAppend(a: string, b: string)
    ensures Units(a + b) == Units(a) + Units(b)
  {
    if a == "" {
      assert a + b == b;
    } else {
      assert (a + b)[1..] == a[1..] + b;
      UnitsAppend(a[1..], b);
    }
  }

  lemma UnitsSplit(s: string, k: nat)
    requires k <= |s|
    ensures Units(s) == Units(s[..k]) + Units(s[k..])
  {
    assert s == s[..k] + s[k..];
    UnitsAppend(s[..k], s[k..]);
  }

  /** The index in `line` of the scalar that starts at UTF-16 column `col`, if a scalar starts (or the line ends)
      there. */
  function IndexOf(line: string, col: nat): Option<nat> {
    if col == 0 then Some(0)
    else if line == "" || Width(line[0]) > col then None
    else match IndexOf(line[1..], col - Width(line[0])) case None => None case Some(k) => Some(k + 1)
  }

  /** A column is accepted exactly when some prefix of the line is that many units long; that prefix is unique. */
  lemma {:induction false} IndexOfExact(line: string, col: nat, k: nat)
    ensures IndexOf(line, col) == Some(k) <==> k <= |line| && Units(line[..k]) == col
  {
    if col == 0 {
      if 0 < k <= |line| {
        assert Units(line[..k]) > 0;
      }
    } else if line == "" {
    } else if k == 0 {
    } else {
      if Width(line[0]) <= col {
        IndexOfExact(line[1..], col - Width(line[0]), k - 1);
      }
      if k <= |line| {
        assert line[..k][1..] == line[1..][..k - 1];
      }
    }
  }

  /** Columns inside a shared prefix mean the same in both lines. */
  lemma {:induction false} IndexOfShared(a: string, b: string, k: nat, col: nat)
    requires k <= |a| && k <= |b| && a[..k] == b[..k]
    requires col <= Units(a[..k])
    ensures IndexOf(a, col) == IndexOf(b, col)
    ensures IndexOf(a, col).Some? ==> IndexOf(a, col).value <= k
  {
    if col == 0 {
    } else {
      assert k > 0 && a[0] == a[..k][0] == b[..k][0] == b[0];
      assert a[1..][..k - 1] == a[..k][1..] == b[..k][1..] == b[1..][..k - 1];
      if Width(a[0]) <= col {
        IndexOfShared(a[1..], b[1..], k - 1, col - Width(a[0]));
      }
    }
  }

  // ---- lines ---------------------------------------------------------------------------------

  /** `lines.join(eol)`. */
  function Join(ls: seq<string>, eol: string): string {
    if |ls| == 0 then "" else if |ls| == 1 then ls[0] else ls[0] + eol + Join(ls[1..], eol)
  }

  /** Two pieces of a document put end to end: the last line of one runs into the first of the other. */
  function Glue(a: seq<string>, b: seq<string>): (ls: seq<string>)
    requires a != [] && b != []
    ensures |ls| == |a| + |b| - 1
  {
    a[..|a| - 1] + [a[|a| - 1] + b[0]] + b[1..]
  }

  /** Splitting at `\r\n`, `\r` and `\n`. */
  function Lines(text: string): (ls: seq<string>)
    ensures ls != []
  {
    if text == "" then [""]
    else if text[0] == '\r' && |text| > 1 && text[1] == '\n' then [""] + Lines(text[2..])
    else if text[0] == '\r' || text[0] == '\n' then [""] + Lines(text[1..])
    else Glue([[text[0]]], Lines(text[1..]))
  }

  predicate Unbroken(line: string) {
    forall i :: 0 <= i < |line| ==> line[i] != '\r' && line[i] != '\n'
  }

  predicate AllUnbroken(ls: seq<string>) {
    forall i :: 0 <= i < |ls| ==> Unbroken(ls[i])
  }

  /** `split_lines`. */
  method SplitLines(text: string) returns (lines: seq<string>)
    ensures lines == Lines(text)
  {
    lines := [];
    var cur := "";
    var i := 0;
    assert text[0..] == text;
    GlueEmpty(Lines(text));
    while i < |text|
      invariant i <= |text|
      invariant lines + Glue([cur], Lines(text[i..])) == Lines(text)
    {
      ghost var rest := text[i..];
      ghost var done, line := lines, cur;
      if text[i] == '\r' {
        if i + 1 < |text| && text[i + 1] == '\n' {
          assert rest[2..] == text[i + 2..];
          i := i + 1;
        } else {
          assert rest[1..] == text[i + 1..];
        }
        EndOfLine(done, line, Lines(text[i + 1..]));
        lines := lines + [cur];
        cur := "";
      } else if text[i] == '\n' {
        assert rest[1..] == text[i + 1..];
        EndOfLine(done, line, Lines(text[i + 1..]));
        lines := lines + [cur];
        cur := "";
      } else {
        assert rest[1..] == text[i + 1..];
        GlueAssoc([cur], [[text[i]]], Lines(text[i + 1..]));
        cur := cur + [text[i]];
      }
      i := i + 1;
    }
    GlueEmpty([cur]);
    lines := lines + [cur];
  }

  lemma GlueEmpty(b: seq<string>)
    requires b != []
    ensures Glue([""], b) == b && Glue(b, [""]) == b
  {
    assert "" + b[0] == b[0];
    assert b[|b| - 1] + "" == b[|b| - 1];
  }

  lemma EndOfLine(done: seq<string>, line: string, rest: seq<string>)
    requires rest != []
    ensures Glue([line], [""] + rest) == [line] + rest
    ensures done + Glue([line], [""] + rest) == (done + [line]) + Glue([""], rest)
  {
    GlueEmpty(rest);
    assert line + "" == line;
    assert Glue([line], [""] + rest) == [line] + rest;
  }

  lemma GlueAssoc(a: seq<string>, b: seq<string>, c: seq<string>)
    requires a != [] && b != [] && c != []
    ensures Glue(Glue(a, b), c) == Glue(a, Glue(b, c))
  {
    var l, r := Glue(Glue(a, b), c), Glue(a, Glue(b, c));
    var n := |a| - 1;
    if |b| == 1 {
      assert l[n] == a[n] + b[0] + c[0] == a[n] + (b[0] + c[0]) == r[n];
    }
    forall i | 0 <= i < |l|
      ensures l[i] == r[i]
    {
    }
  }

  lemma {:induction false} JoinAppend(a: seq<string>, b: seq<string>, eol: string)
    requires a != [] && b != []
    ensures Join(a + b, eol) == Join(a, eol) + eol + Join(b, eol)
  {
    assert (a + b)[1..] == a[1..] + b;
    if |a| > 1 {
      JoinAppend(a[1..], b, eol);
      assert a[0] + eol + (Join(a[1..], eol) + eol + Join(b, eol))
          == (a[0] + eol + Join(a[1..], eol)) + eol + Join(b, eol);
    }
  }

  /** Joining turns gluing into concatenation. */
  lemma {:induction false} JoinGlue(a: seq<string>, b: seq<string>, eol: string)
    requires a != [] && b != []
    ensures Join(Glue(a, b), eol) == Join(a, eol) + Join(b, eol)
  {
    if |a| == 1 {
      assert Glue(a, b)[1..] == b[1..];
      if |b| > 1 {
        assert (a[0] + b[0]) + eol + Join(b[1..], eol) == a[0] + (b[0] + eol + Join(b[1..], eol));
      }
    } else {
      assert Glue(a, b)[1..] == Glue(a[1..], b);
      JoinGlue(a[1..], b, eol);
      assert a[0] + eol + (Join(a[1..], eol) + Join(b, eol)) == (a[0] + eol + Join(a[1..], eol)) + Join(b, eol);
    }
  }

  lemma {:induction false} LinesUnbroken(text: string)
    ensures AllUnbroken(Lines(text))
    decreases |text|
  {
    if text == "" {
    } else if text[0] == '\r' && |text| > 1 && text[1] == '\n' {
      LinesUnbroken(text[2..]);
    } else {
      LinesUnbroken(text[1..]);
    }
  }

  lemma {:induction false} LinesOfUnbroken(a: string, rest: string)
    requires Unbroken(a)
    ensures Lines(a + rest) == Glue([a], Lines(rest))
  {
    if a == "" {
      assert a + rest == rest;
      GlueEmpty(Lines(rest));
    } else {
      assert (a + rest)[1..] == a[1..] + rest;
      LinesOfUnbroken(a[1..], rest);
      GlueAssoc([[a[0]]], [a[1..]], Lines(rest));
      assert [a[0]] + a[1..] == a;
    }
  }

  /** The two line ends a document is detected to have. */
  predicate StandardEol(eol: string) {
    eol == "\n" || eol == "\r\n"
  }

  /** Unbroken lines joined with a standard line end split back into themselves: the text determines the lines. */
  lemma {:induction false} LinesOfJoin(ls: seq<string>, eol: string)
    requires ls != [] && AllUnbroken(ls) && StandardEol(eol)
    ensures Lines(Join(ls, eol)) == ls
  {
    if |ls| == 1 {
      LinesOfUnbroken(ls[0], "");
      assert ls[0] + "" == ls[0];
      GlueEmpty([ls[0]]);
    } else {
      var rest := Join(ls[1..], eol);
      LinesOfJoin(ls[1..], eol);
      assert ls[0] + eol + rest == ls[0] + (eol + rest);
      LinesOfUnbroken(ls[0], eol + rest);
      assert (eol + rest)[|eol|..] == rest;
      assert Lines(eol + rest) == [""] + Lines(rest);
      EndOfLine([], ls[0], ls[1..]);
      assert [ls[0]] + ls[1..] == ls;
    }
  }

  /** Is every line break of `text` an `eol`? */
  predicate OnlyBreaks(text: string, eol: string) {
    if text == "" then true
    else if text[0] == '\r' && |text| > 1 && text[1] == '\n' then eol == "\r\n" && OnlyBreaks(text[2..], eol)
    else if text[0] == '\r' || text[0] == '\n' then eol == [text[0]] && OnlyBreaks(text[1..], eol)
    else OnlyBreaks(text[1..], eol)
  }

  /** A text split into lines and joined again is the same exactly when all its breaks are the one it is joined with. */
  lemma {:induction false} JoinOfLines(text: string, eol: string)
    requires StandardEol(eol)
    ensures Join(Lines(text), eol) == text <==> OnlyBreaks(text, eol)
  {
    if text == "" {
    } else if text[0] == '\r' && |text| > 1 && text[1] == '\n' {
      JoinOfLines(text[2..], eol);
      BreakJoined("\r\n", text[2..], eol);
      assert text == "\r\n" + text[2..];
    } else if text[0] == '\r' || text[0] == '\n' {
      JoinOfLines(text[1..], eol);
      BreakJoined([text[0]], text[1..], eol);
      assert text == [text[0]] + text[1..];
    } else {
      JoinOfLines(text[1..], eol);
      JoinGlue([[text[0]]], Lines(text[1..]), eol);
      assert text == [text[0]] + text[1..];
      assert ([text[0]] + Join(Lines(text[1..]), eol))[1..] == Join(Lines(text[1..]), eol);
    }
  }

  /** A break and what follows it, joined with `eol`. */
  lemma BreakJoined(brk: string, rest: string, eol: string)
    requires StandardEol(eol)
    requires brk == "\r\n" || brk == "\n" || (brk == "\r" && (rest == "" || rest[0] != '\n'))
    ensures Join([""] + Lines(rest), eol) == brk + rest <==> eol == brk && Join(Lines(rest), eol) == rest
  {
    var joined := Join(Lines(rest), eol);
    assert ([""] + Lines(rest))[1..] == Lines(rest);
    assert Join([""] + Lines(rest), eol) == eol + joined;
    if eol + joined == brk + rest {
      assert (eol + joined)[0] == (brk + rest)[0];
      assert |eol + joined| > 1 ==> (eol + joined)[1] == (brk + rest)[1];
      assert (eol + joined)[|eol|..] == joined && (brk + rest)[|brk|..] == rest;
    }
  }

  // ---- places in a document ------------------------------------------------------------------

  /** A place between two scalars: line index and index within the line. */
  datatype Loc = Loc(line: nat, index: nat)

  predicate Within(ls: seq<string>, p: Loc) {
    p.line < |ls| && p.index <= |ls[p.line]|
  }

  predicate AtMost(p: Loc, q: Loc) {
    p.line < q.line || (p.line == q.line && p.index <= q.index)
  }

  /** The document up to `p`. */
  function Head(ls: seq<string>, p: Loc): (h: seq<string>)
    requires Within(ls, p)
    ensures |h| == p.line + 1
  {
    ls[..p.line] + [ls[p.line][..p.index]]
  }

  /** The document from `p` on. */
  function Tail(ls: seq<string>, p: Loc): (t: seq<string>)
    requires Within(ls, p)
    ensures |t| == |ls| - p.line
  {
    [ls[p.line][p.index..]] + ls[p.line + 1..]
  }

  /** The joined text, cut at a place. */
  lemma JoinParts(ls: seq<string>, eol: string, p: Loc)
    requires Within(ls, p)
    ensures Glue(Head(ls, p), Tail(ls, p)) == ls
    ensures Join(ls, eol) == Join(Head(ls, p), eol) + Join(Tail(ls, p), eol)
  {
    assert ls[p.line][..p.index] + ls[p.line][p.index..] == ls[p.line];
    assert Glue(Head(ls, p), Tail(ls, p)) == ls;
    JoinGlue(Head(ls, p), Tail(ls, p), eol);
  }

  /** How many scalars of the joined text lie before `p`. */
  function FlatIndex(ls: seq<string>, eol: string, p: Loc): (n: nat)
    requires Within(ls, p)
    ensures n <= |Join(ls, eol)|
  {
    JoinParts(ls, eol, p);
    |Join(Head(ls, p), eol)|
  }

  lemma JoinCut(ls: seq<string>, eol: string, p: Loc)
    requires Within(ls, p)
    ensures Join(ls, eol)[..FlatIndex(ls, eol, p)] == Join(Head(ls, p), eol)
    ensures Join(ls, eol)[FlatIndex(ls, eol, p)..] == Join(Tail(ls, p), eol)
  {
    JoinParts(ls, eol, p);
  }

  /** Places in order have flat indices in order, and strictly so when line ends are not empty. */
  lemma FlatIndexMonotone(ls: seq<string>, eol: string, p: Loc, q: Loc)
    requires Within(ls, p) && Within(ls, q) && AtMost(p, q)
    ensures FlatIndex(ls, eol, p) <= FlatIndex(ls, eol, q)
    ensures eol != "" && p != q ==> FlatIndex(ls, eol, p) < FlatIndex(ls, eol, q)
  {
    var hp, hq := Head(ls, p), Head(ls, q);
    if p.line == q.line {
      var l := p.line;
      HeadText(ls, eol, p);
      HeadText(ls, eol, q);
    } else {
      var mid := [ls[p.line][p.index..]] + hq[p.line + 1..];
      assert Glue(hp, mid) == hq by {
        assert ls[p.line][..p.index] + ls[p.line][p.index..] == ls[p.line];
      }
      JoinGlue(hp, mid, eol);
      assert |Join(mid, eol)| >= |eol|;
    }
  }

  /** The text before `p`: the lines before, each with its line end, then the start of `p`'s own line. */
  lemma HeadText(ls: seq<string>, eol: string, p: Loc)
    requires Within(ls, p)
    ensures Join(Head(ls, p), eol) == Terminated(ls[..p.line], eol) + ls[p.line][..p.index]
  {
    TerminatedJoin(ls[..p.line], ls[p.line][..p.index], eol);
  }

  function Terminated(ls: seq<string>, eol: string): string {
    if ls == [] then "" else ls[0] + eol + Terminated(ls[1..], eol)
  }

  lemma {:induction false} TerminatedJoin(ls: seq<string>, last: string, eol: string)
    ensures Join(ls + [last], eol) == Terminated(ls, eol) + last
  {
    if ls == [] {
    } else {
      assert (ls + [last])[1..] == ls[1..] + [last];
      TerminatedJoin(ls[1..], last, eol);
    }
  }

  // ---- replacing -----------------------------------------------------------------------------

  /** The document with everything between `p` and `q` replaced by `text`. */
  function Splice(ls: seq<string>, p: Loc, q: Loc, text: string): (r: seq<string>)
    requires Within(ls, p) && Within(ls, q)
    ensures r != []
  {
    Glue(Glue(Head(ls, p), Lines(text)), Tail(ls, q))
  }

  /** Replacing in the line array is replacing in the joined text. */
  lemma SpliceFlat(ls: seq<string>, eol: string, p: Loc, q: Loc, text: string)
    requires Within(ls, p) && Within(ls, q)
    ensures Join(Splice(ls, p, q, text), eol)
         == Join(ls, eol)[..FlatIndex(ls, eol, p)] + Join(Lines(text), eol) + Join(ls, eol)[FlatIndex(ls, eol, q)..]
  {
    JoinCut(ls, eol, p);
    JoinCut(ls, eol, q);
    JoinGlue(Head(ls, p), Lines(text), eol);
    JoinGlue(Glue(Head(ls, p), Lines(text)), Tail(ls, q), eol);
  }

  lemma GlueUnbroken(a: seq<string>, b: seq<string>)
    requires a != [] && b != [] && AllUnbroken(a) && AllUnbroken(b)
    ensures AllUnbroken(Glue(a, b))
  {
  }

  lemma SpliceUnbroken(ls: seq<string>, p: Loc, q: Loc, text: string)
    requires Within(ls, p) && Within(ls, q) && AllUnbroken(ls)
    ensures AllUnbroken(Splice(ls, p, q, text))
  {
    LinesUnbroken(text);
    GlueUnbroken(Head(ls, p), Lines(text));
    GlueUnbroken(Glue(Head(ls, p), Lines(text)), Tail(ls, q));
  }

  /** `a` and `b` have the same content up to `p`. */
  predicate AgreeUpTo(a: seq<string>, b: seq<string>, p: Loc) {
    Within(a, p) && Within(b, p) && Head(a, p) == Head(b, p)
  }

  /** A replacement leaves everything before it alone. */
  lemma SpliceAgrees(ls: seq<string>, p: Loc, q: Loc, text: string)
    requires Within(ls, p) && Within(ls, q)
    ensures AgreeUpTo(Splice(ls, p, q, text), ls, p)
  {
    var mid := Glue(Lines(text), Tail(ls, q));
    GlueAssoc(Head(ls, p), Lines(text), Tail(ls, q));
    var r := Glue(Head(ls, p), mid);
    assert r[p.line] == ls[p.line][..p.index] + mid[0];
    assert r[..p.line] == ls[..p.line];
  }

  lemma AgreeEarlier(a: seq<string>, b: seq<string>, p: Loc, q: Loc)
    requires AgreeUpTo(a, b, q) && AtMost(p, q) && Within(b, p)
    ensures AgreeUpTo(a, b, p)
  {
    assert a[..q.line] == Head(a, q)[..q.line] == Head(b, q)[..q.line] == b[..q.line];
    if p.line < q.line {
      assert a[p.line] == a[..q.line][p.line] == b[..q.line][p.line];
      assert a[..p.line] == a[..q.line][..p.line] == b[..q.line][..p.line] == b[..p.line];
    } else {
      assert a[q.line][..q.index] == Head(a, q)[q.line] == Head(b, q)[q.line] == b[q.line][..q.index];
      assert a[p.line][..p.index] == a[q.line][..q.index][..p.index] == b[p.line][..p.index];
    }
  }
}
