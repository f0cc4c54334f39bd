/** Widget coordinates and how an edit carries a range (`ember/editor/src/coords.rs`). */
module Coords {
  import opened Wrappers
  import opened Text
  import Mirror

  /** 0-based line, 0-based UTF-16 column. */
  datatype Pos = Pos(line: nat, col: nat) {
    predicate Before(q: Pos) {
      line < q.line || (line == q.line && col < q.col)
    }

    predicate NotAfter(q: Pos) {
      this == q || Before(q)
    }

    function ToExthost(): (nat, nat) {
      (line + 1, col + 1)
    }
  }

  datatype Span = Span(start: Pos, end: Pos) {
    predicate IsEmpty() {
      start == end
    }

    function ToExthost(): Mirror.Range {
      Mirror.Range(start.line + 1, start.col + 1, end.line + 1, end.col + 1)
    }
  }

  /** `WidgetRange::new`: swaps reversed ends. */
  function NewSpan(a: Pos, b: Pos): (s: Span)
    ensures s.start.NotAfter(s.end)
  {
    if b.Before(a) then Span(b, a) else Span(a, b)
  }

  /** A range with its ends in order, as the widget and the session keep them. */
  type WidgetRange = s: Span | s.start.NotAfter(s.end) witness Span(Pos(0, 0), Pos(0, 0))

  function Less1(n: nat): nat {
    if n == 0 then 0 else n - 1
  }

  function FromExthost(r: Mirror.Range): Span {
    NewSpan(Pos(Less1(r.startLine), Less1(r.startColumn)), Pos(Less1(r.endLine), Less1(r.endColumn)))
  }

  /** The two coordinate systems convert into each other without loss. */
  lemma ExthostRoundTrip(s: Span, r: Mirror.Range)
    ensures s.start.NotAfter(s.end) ==> FromExthost(s.ToExthost()) == s
    ensures (1 <= r.startLine && 1 <= r.startColumn && 1 <= r.endLine && 1 <= r.endColumn
             && Mirror.PosAtMost(r.startLine, r.startColumn, r.endLine, r.endColumn)) ==>
                 FromExthost(r).ToExthost() == r
  {
  }

  // ---- columns and scalars -------------------------------------------------------------------

  /** `char_to_utf16`. */
  method CharToUtf16(line: string, chars: nat) returns (r: Option<nat>)
    ensures r == if chars <= |line| then Some(Units(line[..chars])) else None
  {
    var units, n := 0, 0;
    while n < |line|
      invariant n <= |line| && n <= chars && units == Units(line[..n])
    {
      if n == chars {
        return Some(units);
      }
      UnitsStep(line, n);
      units := units + Width(line[n]);
      n := n + 1;
    }
    assert line[..|line|] == line;
    r := if n == chars then Some(units) else None;
  }

  lemma UnitsStep(line: string, n: nat)
    requires n < |line|
    ensures Units(line[..n + 1]) == Units(line[..n]) + Width(line[n])
  {
    assert line[..n + 1] == line[..n] + [line[n]];
    UnitsAppend(line[..n], [line[n]]);
    assert [line[n]][1..] == "";
  }

  /** `utf16_to_char` (and `utf16_to_byte`, which walks the same way): the scalar that starts exactly at `col`. */
  method Utf16ToChar(line: string, col: nat) returns (r: Option<nat>)
    ensures r.Some? ==> r.value <= |line| && Units(line[..r.value]) == col
    ensures r.None? ==> forall k :: 0 <= k <= |line| ==> Units(line[..k]) != col
  {
    var units, n := 0, 0;
    while n < |line|
      invariant n <= |line| && units == Units(line[..n]) && units <= col
    {
      if units == col {
        return Some(n);
      }
      UnitsStep(line, n);
      units := units + Width(line[n]);
      if units > col {
        NoColumnBetween(line, n, col);
        return None;
      }
      n := n + 1;
    }
    assert line[..|line|] == line;
    if units == col {
      return Some(|line|);
    }
    forall k | 0 <= k <= |line|
      ensures Units(line[..k]) != col
    {
      UnitsSplit(line, k);
    }
    r := None;
  }

  lemma NoColumnBetween(line: string, n: nat, col: nat)
    requires n < |line| && Units(line[..n]) < col < Units(line[..n + 1])
    ensures forall k :: 0 <= k <= |line| ==> Units(line[..k]) != col
  {
    forall k | 0 <= k <= |line|
      ensures Units(line[..k]) != col
    {
      if k <= n {
        PrefixUnits(line, k, n);
      } else {
        PrefixUnits(line, n + 1, k);
      }
    }
  }

  lemma PrefixUnits(line: string, a: nat, b: nat)
    requires a <= b <= |line|
    ensures Units(line[..a]) <= Units(line[..b])
  {
    UnitsSplit(line[..b], a);
    assert line[..b][..a] == line[..a];
  }

  /** `col` clamped into `line`: the largest column at or below it where a scalar starts or the line ends. */
  ghost predicate IsClamped(line: string, col: nat, r: nat) {
    && r <= col
    && (exists k :: 0 <= k <= |line| && Units(line[..k]) == r)
    && (forall k :: 0 <= k <= |line| && Units(line[..k]) <= col ==> Units(line[..k]) <= r)
  }

  function ClampedCol(line: string, col: nat): nat {
    if line == "" || Width(line[0]) > col then 0
    else Width(line[0]) + ClampedCol(line[1..], col - Width(line[0]))
  }

  lemma {:induction false} ClampedColIs(line: string, col: nat)
    ensures IsClamped(line, col, ClampedCol(line, col))
  {
    var r := ClampedCol(line, col);
    if line == "" || Width(line[0]) > col {
      assert Units(line[..0]) == r;
      forall k | 0 < k <= |line|
        ensures Units(line[..k]) >= Width(line[0])
      {
        assert line[..k][0] == line[0];
      }
    } else {
      var rest, c := line[1..], col - Width(line[0]);
      ClampedColIs(rest, c);
      var k :| 0 <= k <= |rest| && Units(rest[..k]) == ClampedCol(rest, c);
      assert line[..k + 1][1..] == rest[..k];
      assert Units(line[..k + 1]) == r;
      forall j | 0 <= j <= |line| && Units(line[..j]) <= col
        ensures Units(line[..j]) <= r
      {
        if j > 0 {
          assert line[..j][1..] == rest[..j - 1];
        }
      }
    }
  }

  /** `clamp_col`. */
  method ClampCol(line: string, col: nat) returns (r: nat)
    ensures r == ClampedCol(line, col) && IsClamped(line, col, r)
  {
    ClampedColIs(line, col);
    r := 0;
    var n := 0;
    while n < |line|
      invariant n <= |line| && r == Units(line[..n]) && r <= col
    {
      UnitsStep(line, n);
      if r + Width(line[n]) > col {
        forall k | 0 <= k <= |line| && Units(line[..k]) <= col
          ensures Units(line[..k]) <= r
        {
          if k <= n {
            PrefixUnits(line, k, n);
          } else {
            PrefixUnits(line, n + 1, k);
          }
        }
        return;
      }
      r := r + Width(line[n]);
      n := n + 1;
    }
    forall k | 0 <= k <= |line| && Units(line[..k]) <= col
      ensures Units(line[..k]) <= r
    {
      PrefixUnits(line, k, |line|);
    }
  }

  // ---- places --------------------------------------------------------------------------------

  /** The place a widget position names, if it names one. */
  function Place(ls: seq<string>, p: Pos): Option<Loc> {
    match Mirror.Locate(ls, p.line + 1, p.col + 1)
    case Ok(l) => Some(l)
    case Err(_) => None
  }

  predicate Names(ls: seq<string>, p: Pos, l: Loc) {
    Within(ls, l) && p.line == l.line && p.col == Units(ls[l.line][..l.index])
  }

  lemma PlaceExact(ls: seq<string>, p: Pos, l: Loc)
    ensures Place(ls, p) == Some(l) <==> Names(ls, p, l)
  {
    Mirror.LocateExact(ls, p.line + 1, p.col + 1, l);
  }

  predicate ValidPos(ls: seq<string>, p: Pos) {
    Place(ls, p).Some?
  }

  predicate ValidSpan(ls: seq<string>, s: Span) {
    ValidPos(ls, s.start) && ValidPos(ls, s.end) && s.start.NotAfter(s.end)
  }

  function At(ls: seq<string>, p: Pos): (l: Loc)
    requires ValidPos(ls, p)
    ensures Names(ls, p, l)
  {
    PlaceExact(ls, p, Place(ls, p).value);
    Place(ls, p).value
  }

  /** The flat offset of a position: scalars of the joined text before it. */
  function Offset(ls: seq<string>, eol: string, p: Pos): (n: nat)
    requires ValidPos(ls, p)
    ensures n <= |Join(ls, eol)|
  {
    FlatIndex(ls, eol, At(ls, p))
  }

  /** Positions and their flat offsets are ordered alike. */
  lemma OffsetOrder(ls: seq<string>, eol: string, p: Pos, q: Pos)
    requires ValidPos(ls, p) && ValidPos(ls, q) && eol != ""
    ensures p.Before(q) <==> Offset(ls, eol, p) < Offset(ls, eol, q)
    ensures p == q <==> Offset(ls, eol, p) == Offset(ls, eol, q)
  {
    var a, b := At(ls, p), At(ls, q);
    Mirror.LocateMonotone(ls, p.line + 1, p.col + 1, q.line + 1, q.col + 1, a, b);
    Mirror.LocateMonotone(ls, q.line + 1, q.col + 1, p.line + 1, p.col + 1, b, a);
    if AtMost(a, b) {
      FlatIndexMonotone(ls, eol, a, b);
    } else {
      FlatIndexMonotone(ls, eol, b, a);
    }
  }

  function ClampedPos(ls: seq<string>, p: Pos): Pos {
    if ls == [] then Pos(0, 0)
    else
      var line := if p.line < |ls| then p.line else |ls| - 1;
      Pos(line, ClampedCol(ls[line], p.col))
  }

  /** A range of the document, for the ends of any range. */
  function Clamped(ls: seq<string>, r: Span): (s: Span)
    ensures s.start.NotAfter(s.end)
  {
    NewSpan(ClampedPos(ls, r.start), ClampedPos(ls, r.end))
  }

  /** `q` is on the line of `p`, or the last one if there is none, at the last column there not after that of `p`. */
  ghost predicate ClampedExactly(ls: seq<string>, p: Pos, q: Pos)
    requires ls != []
  {
    && q.line == (if p.line < |ls| then p.line else |ls| - 1)
    && IsClamped(ls[q.line], p.col, q.col)
  }

  lemma ClampedPosValid(ls: seq<string>, p: Pos)
    requires ls != []
    ensures ValidPos(ls, ClampedPos(ls, p)) && (ValidPos(ls, p) ==> ClampedPos(ls, p) == p)
    ensures ClampedExactly(ls, p, ClampedPos(ls, p))
  {
    var q := ClampedPos(ls, p);
    var line := ls[q.line];
    ClampedColIs(line, p.col);
    var k :| 0 <= k <= |line| && Units(line[..k]) == q.col;
    PlaceExact(ls, q, Loc(q.line, k));
    if ValidPos(ls, p) {
      assert Names(ls, p, At(ls, p));
    }
  }

  /** Clamping gives a range of the document, and leaves one that already is. */
  lemma ClampedValid(ls: seq<string>, r: Span)
    requires ls != []
    ensures ValidSpan(ls, Clamped(ls, r)) && (ValidSpan(ls, r) ==> Clamped(ls, r) == r)
  {
    ClampedPosValid(ls, r.start);
    ClampedPosValid(ls, r.end);
  }

  /** `clamp_range`'s treatment of one end. */
  method ClampPos(ls: seq<string>, p: Pos) returns (q: Pos)
    ensures q == ClampedPos(ls, p)
    ensures ls != [] ==> ValidPos(ls, q) && (ValidPos(ls, p) ==> q == p) && ClampedExactly(ls, p, q)
  {
    if ls == [] {
      return Pos(0, 0);
    }
    var line := if p.line < |ls| then p.line else |ls| - 1;
    var col := ClampCol(ls[line], p.col);
    q := Pos(line, col);
    ClampedPosValid(ls, p);
  }

  /** `clamp_range`: a range of the document, and the given one if it already is one. */
  method ClampRange(ls: seq<string>, r: Span) returns (out: Span)
    ensures out == Clamped(ls, r)
    ensures ls != [] ==> ValidSpan(ls, out) && (ValidSpan(ls, r) ==> out == r)
  {
    var start := ClampPos(ls, r.start);
    var end := ClampPos(ls, r.end);
    out := NewSpan(start, end);
  }

  // ---- carrying a range through an edit ------------------------------------------------------

  /** `end_of_insert`. */
  function EndOfInsert(start: Pos, text: string): Pos {
    var lines := Lines(text);
    var last := lines[|lines| - 1];
    if |lines| <= 1 then Pos(start.line, start.col + Units(last))
    else Pos(start.line + |lines| - 1, Units(last))
  }

  /** `shift_after`, for a position at or after the edit's end. */
  function ShiftAfter(p: Pos, edit: Span, insEnd: Pos): Pos
    requires edit.end.NotAfter(p)
  {
    if p.line == edit.end.line then Pos(insEnd.line, insEnd.col + (p.col - edit.end.col))
    else Pos(p.line - edit.end.line + insEnd.line, p.col)
  }

  /** `transform_range`. */
  function TransformRange(r: Span, edit: Span, text: string): Option<Span>
    requires r.start.NotAfter(r.end) && edit.start.NotAfter(edit.end)
  {
    var insEnd := EndOfInsert(edit.start, text);
    if r.end.Before(edit.start) || (r.end == edit.start && !(r.IsEmpty() && edit.IsEmpty())) then Some(r)
    else if edit.end.NotAfter(r.start) then
      Some(Span(ShiftAfter(r.start, edit, insEnd), ShiftAfter(r.end, edit, insEnd)))
    else if !r.IsEmpty() && edit.start.NotAfter(r.start) && r.end.NotAfter(edit.end) then None
    else
      var start := if r.start.Before(edit.start) then r.start else insEnd;
      var end := if edit.end.Before(r.end) then ShiftAfter(r.end, edit, insEnd) else insEnd;
      var out := NewSpan(start, end);
      if out.IsEmpty() && !r.IsEmpty() then None else Some(out)
  }

  /** A carried range has its ends in order. */
  lemma TransformOrdered(r: Span, edit: Span, text: string)
    requires r.start.NotAfter(r.end) && edit.start.NotAfter(edit.end)
    ensures var out := TransformRange(r, edit, text); out.Some? ==> out.value.start.NotAfter(out.value.end)
  {
  }

  function Carried(r: WidgetRange, edit: WidgetRange, text: string): Option<WidgetRange> {
    TransformOrdered(r, edit, text);
    match TransformRange(r, edit, text)
    case None => None
    case Some(s) => Some(s)
  }

  /** The lines after `edit` was replaced by `text`. */
  function AfterEdit(ls: seq<string>, edit: Span, text: string): seq<string>
    requires ValidSpan(ls, edit)
  {
    Splice(ls, At(ls, edit.start), At(ls, edit.end), text)
  }

  /** The length of the inserted text once it has the document's line ends. */
  function Inserted(text: string, eol: string): nat {
    |Join(Lines(text), eol)|
  }

  /** Gluing more onto the end of a document leaves a place in it where it was. */
  lemma NamesInFront(a: seq<string>, b: seq<string>, p: Pos, l: Loc, eol: string)
    requires a != [] && b != [] && Names(a, p, l)
    ensures Names(Glue(a, b), p, l) && FlatIndex(Glue(a, b), eol, l) == FlatIndex(a, eol, l)
  {
    var g := Glue(a, b);
    assert g[l.line][..l.index] == a[l.line][..l.index];
    assert g[..l.line] == a[..l.line];
  }

  /** Where a place of `b` is once `b` has been glued onto `a`. */
  function Moved(a: seq<string>, l: Loc): Loc
    requires a != []
  {
    Loc(|a| - 1 + l.line, if l.line == 0 then |a[|a| - 1]| + l.index else l.index)
  }

  lemma NamesBehind(a: seq<string>, b: seq<string>, l: Loc, eol: string)
    requires a != [] && b != [] && Within(b, l)
    ensures var m := Moved(a, l);
            && Within(Glue(a, b), m)
            && Units(Glue(a, b)[m.line][..m.index]) == (if l.line == 0 then Units(a[|a| - 1]) else 0)
                + Units(b[l.line][..l.index])
            && FlatIndex(Glue(a, b), eol, m) == |Join(a, eol)| + FlatIndex(b, eol, l)
  {
    var g, m := Glue(a, b), Moved(a, l);
    if l.line == 0 {
      assert g[m.line][..m.index] == a[|a| - 1] + b[0][..l.index];
      UnitsAppend(a[|a| - 1], b[0][..l.index]);
    } else {
      assert g[m.line] == b[l.line];
    }
    assert Head(g, m) == Glue(a, Head(b, l));
    JoinGlue(a, Head(b, l), eol);
  }

  /** The end of the inserted text is a place of the edited document: the inserted length after the edit's start. */
  lemma InsertEnd(ls: seq<string>, eol: string, edit: Span, text: string)
    requires ValidSpan(ls, edit)
    ensures var after, e := AfterEdit(ls, edit, text), EndOfInsert(edit.start, text);
            ValidPos(after, e) && Offset(after, eol, e) == Offset(ls, eol, edit.start) + Inserted(text, eol)
  {
    var p, q, ins := At(ls, edit.start), At(ls, edit.end), Lines(text);
    var front := Glue(Head(ls, p), ins);
    var e := EndOfInsert(edit.start, text);
    var last := Loc(|ins| - 1, |ins[|ins| - 1]|);
    assert ins[last.line][..last.index] == ins[last.line];
    assert Head(ins, last) == ins;
    NamesBehind(Head(ls, p), ins, last, eol);
    var m := Moved(Head(ls, p), last);
    assert Names(front, e, m);
    NamesInFront(front, Tail(ls, q), e, m, eol);
    PlaceExact(AfterEdit(ls, edit, text), e, m);
  }

  /** The place in the tail of a document that `l` names in the whole. */
  function InTail(ls: seq<string>, q: Loc, l: Loc): Loc
    requires Within(ls, q) && Within(ls, l) && AtMost(q, l)
  {
    Loc(l.line - q.line, if l.line == q.line then l.index - q.index else l.index)
  }

  lemma TailPlace(ls: seq<string>, eol: string, q: Loc, l: Loc)
    requires Within(ls, q) && Within(ls, l) && AtMost(q, l)
    ensures var t := InTail(ls, q, l);
            && Within(Tail(ls, q), t)
            && Units(ls[l.line][..l.index]) == (if l.line == q.line then Units(ls[q.line][..q.index]) else 0)
                + Units(Tail(ls, q)[t.line][..t.index])
            && FlatIndex(ls, eol, l) == FlatIndex(ls, eol, q) + FlatIndex(Tail(ls, q), eol, t)
  {
    var t := InTail(ls, q, l);
    var tail := Tail(ls, q);
    if l.line == q.line {
      assert ls[l.line][..l.index] == ls[q.line][..q.index] + tail[0][..t.index];
      UnitsAppend(ls[q.line][..q.index], tail[0][..t.index]);
    } else {
      assert tail[t.line] == ls[l.line];
      assert ls[q.line][..q.index] + ls[q.line][q.index..] == ls[q.line];
    }
    assert Head(ls, l) == Glue(Head(ls, q), Head(tail, t));
    JoinGlue(Head(ls, q), Head(tail, t), eol);
  }

  /** A position at or after the edit's end moves by exactly what the edit adds or removes. */
  lemma ShiftedPlace(ls: seq<string>, eol: string, edit: Span, text: string, p: Pos)
    requires ValidSpan(ls, edit) && ValidPos(ls, p) && edit.end.NotAfter(p)
    ensures var after, s := AfterEdit(ls, edit, text), ShiftAfter(p, edit, EndOfInsert(edit.start, text));
            && ValidPos(after, s)
            && Offset(after, eol, s) + (Offset(ls, eol, edit.end) - Offset(ls, eol, edit.start))
                == Offset(ls, eol, p) + Inserted(text, eol)
  {
    var from, q, l := At(ls, edit.start), At(ls, edit.end), At(ls, p);
    Mirror.LocateMonotone(ls, edit.end.line + 1, edit.end.col + 1, p.line + 1, p.col + 1, q, l);
    var front := Glue(Head(ls, from), Lines(text));
    var t := InTail(ls, q, l);
    TailPlace(ls, eol, q, l);
    NamesBehind(front, Tail(ls, q), t, eol);
    FrontEnd(ls, edit, text);
    var s := ShiftAfter(p, edit, EndOfInsert(edit.start, text));
    PlaceExact(AfterEdit(ls, edit, text), s, Moved(front, t));
    JoinGlue(Head(ls, from), Lines(text), eol);
  }

  /** The end of the inserted text, read off the document up to it. */
  lemma FrontEnd(ls: seq<string>, edit: Span, text: string)
    requires ValidSpan(ls, edit)
    ensures var front, e := Glue(Head(ls, At(ls, edit.start)), Lines(text)), EndOfInsert(edit.start, text);
            e.line == |front| - 1 && e.col == Units(front[|front| - 1])
  {
    var p, ins := At(ls, edit.start), Lines(text);
    if |ins| == 1 {
      UnitsAppend(ls[p.line][..p.index], ins[0]);
    }
  }

  lemma KeptAgrees(ls: seq<string>, edit: Span, text: string, p: Pos)
    requires ValidSpan(ls, edit) && ValidPos(ls, p) && p.NotAfter(edit.start)
    ensures AtMost(At(ls, p), At(ls, edit.start)) && AgreeUpTo(AfterEdit(ls, edit, text), ls, At(ls, edit.start))
  {
    var from, l := At(ls, edit.start), At(ls, p);
    Mirror.LocateMonotone(ls, p.line + 1, p.col + 1, edit.start.line + 1, edit.start.col + 1, l, from);
    SpliceAgrees(ls, from, At(ls, edit.end), text);
  }

  lemma SharedPlace(a: seq<string>, b: seq<string>, eol: string, p: Pos, q: Loc)
    requires ValidPos(b, p) && AtMost(At(b, p), q) && AgreeUpTo(a, b, q)
    ensures ValidPos(a, p) && Offset(a, eol, p) == Offset(b, eol, p)
  {
    Mirror.LocateShared(a, b, p.line + 1, p.col + 1, At(b, p), q);
  }

  /** A position at or before the edit's start does not move. */
  lemma KeptPlace(ls: seq<string>, eol: string, edit: Span, text: string, p: Pos)
    requires ValidSpan(ls, edit) && ValidPos(ls, p) && p.NotAfter(edit.start)
    ensures var after := AfterEdit(ls, edit, text);
            ValidPos(after, p) && Offset(after, eol, p) == Offset(ls, eol, p)
  {
    KeptAgrees(ls, edit, text, p);
    SharedPlace(AfterEdit(ls, edit, text), ls, eol, p, At(ls, edit.start));
  }

  // ---- the same on flat offsets --------------------------------------------------------------

  /** A range of flat offsets. */
  datatype FlatSpan = FlatSpan(from: nat, to: nat)

  function FlatOf(ls: seq<string>, eol: string, s: Span): FlatSpan
    requires ValidSpan(ls, s)
  {
    FlatSpan(Offset(ls, eol, s.start), Offset(ls, eol, s.end))
  }

  /** Carrying offsets `r` through the replacement of offsets `e` by `n` scalars. */
  function CarryFlat(r: FlatSpan, e: FlatSpan, n: nat): Option<FlatSpan>
    requires r.from <= r.to && e.from <= e.to
  {
    var grown := n - (e.to - e.from);
    if r.from < r.to && e.from <= r.from && r.to <= e.to then None
    else if r.to < e.from || (r.to == e.from && (r.from < r.to || e.from < e.to)) then Some(r)
    else
      Some(FlatSpan(if r.from >= e.to then r.from + grown else if r.from < e.from then r.from else e.from + n,
                    if r.to >= e.to then r.to + grown else e.from + n))
  }

  /** The comparisons `transform_range` makes are comparisons of flat offsets. */
  lemma SpanOrder(ls: seq<string>, eol: string, r: Span, edit: Span)
    requires ValidSpan(ls, r) && ValidSpan(ls, edit) && eol != ""
    ensures var f, e := FlatOf(ls, eol, r), FlatOf(ls, eol, edit);
            && f.from <= f.to && e.from <= e.to
            && (r.IsEmpty() <==> f.from == f.to) && (edit.IsEmpty() <==> e.from == e.to)
            && (r.end.Before(edit.start) <==> f.to < e.from) && (r.end == edit.start <==> f.to == e.from)
            && (edit.end.NotAfter(r.start) <==> e.to <= f.from) && (edit.start.NotAfter(r.start) <==> e.from <= f.from)
            && (r.end.NotAfter(edit.end) <==> f.to <= e.to) && (r.start.Before(edit.start) <==> f.from < e.from)
            && (edit.end.Before(r.end) <==> e.to < f.to)
  {
    OffsetOrder(ls, eol, r.start, r.end);
    OffsetOrder(ls, eol, edit.start, edit.end);
    OffsetOrder(ls, eol, r.end, edit.start);
    OffsetOrder(ls, eol, edit.end, r.start);
    OffsetOrder(ls, eol, edit.start, r.start);
    OffsetOrder(ls, eol, r.end, edit.end);
    OffsetOrder(ls, eol, r.start, edit.start);
  }

  /** `out` is a valid range of the edited document whose offsets are the carried ones. */
  predicate Refines(ls: seq<string>, eol: string, r: Span, edit: Span, text: string, out: Option<Span>)
    requires ValidSpan(ls, r) && ValidSpan(ls, edit)
  {
    var after, f, e := AfterEdit(ls, edit, text), FlatOf(ls, eol, r), FlatOf(ls, eol, edit);
    && f.from <= f.to && e.from <= e.to
    && (out.Some? ==> ValidSpan(after, out.value))
    && CarryFlat(f, e, Inserted(text, eol)) == (if out.Some? then Some(FlatOf(after, eol, out.value)) else None)
  }

  predicate IsBefore(r: Span, edit: Span) {
    r.end.Before(edit.start) || (r.end == edit.start && !(r.IsEmpty() && edit.IsEmpty()))
  }

  lemma BeforeRefines(ls: seq<string>, eol: string, r: Span, edit: Span, text: string)
    requires ValidSpan(ls, r) && ValidSpan(ls, edit) && eol != "" && IsBefore(r, edit)
    ensures Refines(ls, eol, r, edit, text, Some(r))
  {
    SpanOrder(ls, eol, r, edit);
    KeptPlace(ls, eol, edit, text, r.start);
    KeptPlace(ls, eol, edit, text, r.end);
  }

  lemma AfterRefines(ls: seq<string>, eol: string, r: Span, edit: Span, text: string)
    requires ValidSpan(ls, r) && ValidSpan(ls, edit) && eol != "" && !IsBefore(r, edit) && edit.end.NotAfter(r.start)
    ensures var insEnd := EndOfInsert(edit.start, text);
            Refines(ls, eol, r, edit, text,
                Some(Span(ShiftAfter(r.start, edit, insEnd), ShiftAfter(r.end, edit, insEnd))))
  {
    var after, insEnd := AfterEdit(ls, edit, text), EndOfInsert(edit.start, text);
    SpanOrder(ls, eol, r, edit);
    ShiftedPlace(ls, eol, edit, text, r.start);
    ShiftedPlace(ls, eol, edit, text, r.end);
    SpanByOffsets(after, eol, ShiftAfter(r.start, edit, insEnd), ShiftAfter(r.end, edit, insEnd));
  }

  lemma SpanByOffsets(ls: seq<string>, eol: string, p: Pos, q: Pos)
    requires ValidPos(ls, p) && ValidPos(ls, q) && eol != "" && Offset(ls, eol, p) <= Offset(ls, eol, q)
    ensures ValidSpan(ls, Span(p, q)) && (p == q <==> Offset(ls, eol, p) == Offset(ls, eol, q))
  {
    OffsetOrder(ls, eol, p, q);
  }

  lemma RefinesBy(ls: seq<string>, eol: string, r: Span, edit: Span, text: string, p: Pos, q: Pos)
    requires ValidSpan(ls, r) && ValidSpan(ls, edit) && eol != ""
    requires var f, e := FlatOf(ls, eol, r), FlatOf(ls, eol, edit);
             var after := AfterEdit(ls, edit, text);
             && f.from <= f.to && e.from <= e.to
             && ValidPos(after, p) && ValidPos(after, q) && Offset(after, eol, p) <= Offset(after, eol, q)
             && CarryFlat(f, e, Inserted(text, eol)) == Some(FlatSpan(Offset(after, eol, p), Offset(after, eol, q)))
    ensures Refines(ls, eol, r, edit, text, Some(Span(p, q)))
    ensures var after := AfterEdit(ls, edit, text); p == q <==> Offset(after, eol, p) == Offset(after, eol, q)
  {
    SpanByOffsets(AfterEdit(ls, edit, text), eol, p, q);
  }

  lemma AroundOrder(ls: seq<string>, eol: string, r: Span, edit: Span)
    requires ValidSpan(ls, r) && ValidSpan(ls, edit) && eol != ""
    requires !IsBefore(r, edit) && !edit.end.NotAfter(r.start)
    requires r.IsEmpty() || !edit.start.NotAfter(r.start) || !r.end.NotAfter(edit.end)
    ensures var f, e := FlatOf(ls, eol, r), FlatOf(ls, eol, edit);
            Around(f, e) && (r.IsEmpty() <==> f.from == f.to)
  {
    SpanOrder(ls, eol, r, edit);
  }

  /** The offsets `f` reach into `e`, and are not all of them replaced. */
  predicate Around(f: FlatSpan, e: FlatSpan) {
    && f.from <= f.to && e.from <= e.to && e.from <= f.to && f.from < e.to
    && (f.to == e.from ==> f.from == f.to && e.from == e.to)
    && (f.from == f.to || f.from < e.from || e.to < f.to)
  }

  lemma AroundFlat(f: FlatSpan, e: FlatSpan, n: nat)
    requires Around(f, e)
    ensures var from, to := FromCut(f, e, n), ToCut(f, e, n);
            from <= to && (from == to ==> f.from == f.to) && CarryFlat(f, e, n) == Some(FlatSpan(from, to))
  {
  }

  /** Where offsets around `e` begin and end after it. */
  function FromCut(f: FlatSpan, e: FlatSpan, n: nat): nat {
    if f.from < e.from then f.from else e.from + n
  }

  function ToCut(f: FlatSpan, e: FlatSpan, n: nat): nat {
    e.from + n + if e.to < f.to then f.to - e.to else 0
  }

  function StartCut(r: Span, edit: Span, insEnd: Pos): Pos {
    if r.start.Before(edit.start) then r.start else insEnd
  }

  function EndCut(r: Span, edit: Span, insEnd: Pos): Pos {
    if edit.end.Before(r.end) then ShiftAfter(r.end, edit, insEnd) else insEnd
  }

  lemma CutStartPlace(ls: seq<string>, eol: string, r: Span, edit: Span, text: string)
    requires ValidSpan(ls, r) && ValidSpan(ls, edit) && eol != ""
    ensures var after, q := AfterEdit(ls, edit, text), StartCut(r, edit, EndOfInsert(edit.start, text));
            && ValidPos(after, q)
            && Offset(after, eol, q) == FromCut(FlatOf(ls, eol, r), FlatOf(ls, eol, edit), Inserted(text, eol))
  {
    InsertEnd(ls, eol, edit, text);
    OffsetOrder(ls, eol, r.start, edit.start);
    if r.start.Before(edit.start) {
      KeptPlace(ls, eol, edit, text, r.start);
    }
  }

  lemma CutEndPlace(ls: seq<string>, eol: string, r: Span, edit: Span, text: string)
    requires ValidSpan(ls, r) && ValidSpan(ls, edit) && eol != ""
    ensures var after, q := AfterEdit(ls, edit, text), EndCut(r, edit, EndOfInsert(edit.start, text));
            && ValidPos(after, q)
            && Offset(after, eol, q) == ToCut(FlatOf(ls, eol, r), FlatOf(ls, eol, edit), Inserted(text, eol))
  {
    InsertEnd(ls, eol, edit, text);
    OffsetOrder(ls, eol, edit.end, r.end);
    if edit.end.Before(r.end) {
      ShiftedPlace(ls, eol, edit, text, r.end);
    }
  }

  lemma AroundRefines(ls: seq<string>, eol: string, r: Span, edit: Span, text: string)
    requires ValidSpan(ls, r) && ValidSpan(ls, edit) && eol != ""
    requires !IsBefore(r, edit) && !edit.end.NotAfter(r.start)
    requires r.IsEmpty() || !edit.start.NotAfter(r.start) || !r.end.NotAfter(edit.end)
    ensures var insEnd := EndOfInsert(edit.start, text);
            var start, end := StartCut(r, edit, insEnd), EndCut(r, edit, insEnd);
            Refines(ls, eol, r, edit, text, Some(Span(start, end))) && (start == end ==> r.IsEmpty())
  {
    var insEnd := EndOfInsert(edit.start, text);
    AroundOrder(ls, eol, r, edit);
    CutStartPlace(ls, eol, r, edit, text);
    CutEndPlace(ls, eol, r, edit, text);
    AroundFlat(FlatOf(ls, eol, r), FlatOf(ls, eol, edit), Inserted(text, eol));
    RefinesBy(ls, eol, r, edit, text, StartCut(r, edit, insEnd), EndCut(r, edit, insEnd));
  }

  lemma AroundTransformed(ls: seq<string>, eol: string, r: Span, edit: Span, text: string)
    requires ValidSpan(ls, r) && ValidSpan(ls, edit) && eol != ""
    requires !IsBefore(r, edit) && !edit.end.NotAfter(r.start)
    requires r.IsEmpty() || !edit.start.NotAfter(r.start) || !r.end.NotAfter(edit.end)
    ensures Refines(ls, eol, r, edit, text, TransformRange(r, edit, text))
  {
    AroundRefines(ls, eol, r, edit, text);
  }

  lemma DroppedRefines(ls: seq<string>, eol: string, r: Span, edit: Span, text: string)
    requires ValidSpan(ls, r) && ValidSpan(ls, edit) && eol != ""
    requires !r.IsEmpty() && edit.start.NotAfter(r.start) && r.end.NotAfter(edit.end)
    ensures Refines(ls, eol, r, edit, text, None)
  {
    SpanOrder(ls, eol, r, edit);
  }

  /** The line and column transform is the offset transform: same cases, valid positions of the edited document,
      exact offsets. */
  lemma TransformRefinesOffsets(ls: seq<string>, eol: string, r: Span, edit: Span, text: string)
    requires ValidSpan(ls, r) && ValidSpan(ls, edit) && eol != ""
    ensures Refines(ls, eol, r, edit, text, TransformRange(r, edit, text))
  {
    if IsBefore(r, edit) {
      BeforeRefines(ls, eol, r, edit, text);
    } else if edit.end.NotAfter(r.start) {
      AfterRefines(ls, eol, r, edit, text);
    } else if !r.IsEmpty() && edit.start.NotAfter(r.start) && r.end.NotAfter(edit.end) {
      DroppedRefines(ls, eol, r, edit, text);
    } else {
      AroundTransformed(ls, eol, r, edit, text);
    }
  }

  /** A range is dropped exactly when it is non-empty and lies wholly inside the edit. */
  lemma DroppedExactly(ls: seq<string>, r: Span, edit: Span, text: string)
    requires ValidSpan(ls, r) && ValidSpan(ls, edit)
    ensures TransformRange(r, edit, text).None?
       <==> !r.IsEmpty() && edit.start.NotAfter(r.start) && r.end.NotAfter(edit.end)
  {
    TransformRefinesOffsets(ls, "\n", r, edit, text);
    SpanOrder(ls, "\n", r, edit);
  }

  /** The text a range covers. */
  function Covered(ls: seq<string>, eol: string, s: Span): string
    requires ValidSpan(ls, s) && eol != ""
  {
    OffsetOrder(ls, eol, s.start, s.end);
    Join(ls, eol)[Offset(ls, eol, s.start)..Offset(ls, eol, s.end)]
  }

  /** A range that only touches the edit, or not even that, covers the same text before and after. */
  lemma DisjointKeepsText(ls: seq<string>, eol: string, r: Span, edit: Span, text: string)
    requires ValidSpan(ls, r) && ValidSpan(ls, edit) && eol != ""
    requires r.end.NotAfter(edit.start) || edit.end.NotAfter(r.start)
    ensures var out := TransformRange(r, edit, text);
            && out.Some? && ValidSpan(AfterEdit(ls, edit, text), out.value)
            && Covered(AfterEdit(ls, edit, text), eol, out.value) == Covered(ls, eol, r)
  {
    TransformRefinesOffsets(ls, eol, r, edit, text);
    SpanOrder(ls, eol, r, edit);
    SpliceFlat(ls, eol, At(ls, edit.start), At(ls, edit.end), text);
    var f, e := FlatOf(ls, eol, r), FlatOf(ls, eol, edit);
    CarriedText(Join(ls, eol), Join(Lines(text), eol), f, e);
  }

  /** The same on flat texts. */
  lemma CarriedText(t: string, ins: string, r: FlatSpan, e: FlatSpan)
    requires r.from <= r.to <= |t| && e.from <= e.to <= |t|
    requires r.to <= e.from || e.to <= r.from
    ensures var u, out := t[..e.from] + ins + t[e.to..], CarryFlat(r, e, |ins|);
            out.Some? && out.value.from <= out.value.to <= |u| && u[out.value.from..out.value.to] == t[r.from..r.to]
  {
    var u, grown := t[..e.from] + ins + t[e.to..], |ins| - (e.to - e.from);
    if r.to <= e.from && (r.from < r.to || r.to < e.from || e.from < e.to) {
      assert u[r.from..r.to] == t[r.from..r.to];
    } else {
      assert u[e.from + |ins|..] == t[e.to..];
      assert u[r.from + grown..r.to + grown] == t[e.to..][r.from - e.to..r.to - e.to] == t[r.from..r.to];
    }
  }
}
