/** Which markers are drawn, where, and under which ids (`ember/editor/src/diagnostics.rs`). */
module Squiggles {
  import opened Wrappers
  import opened Coords
  import opened Ordering
  import opened Keys
  import opened Decorations
  import opened Ids
  import opened Diagnostics
  import Text

  // ---- every marker of a document ------------------------------------------------------------

  /** The markers of one owner among them. */
  function OfOwner(ms: seq<Owned>, owner: string): seq<Tracked> {
    if ms == [] then []
    else
      var n := |ms| - 1;
      OfOwner(ms[..n], owner) + if ms[n].0 == owner then [ms[n].1] else []
  }

  lemma {:induction false} OfOwnerAppend(a: seq<Owned>, b: seq<Owned>, owner: string)
    ensures OfOwner(a + b, owner) == OfOwner(a, owner) + OfOwner(b, owner)
  {
    if b == [] {
      assert a + b == a;
    } else {
      var n := |b| - 1;
      assert (a + b)[..|a| + n] == a + b[..n] && (a + b)[|a| + n] == b[n];
      OfOwnerAppend(a, b[..n], owner);
    }
  }

  lemma {:induction false} OwningIs(owner: string, ms: seq<Tracked>, o: string)
    ensures OfOwner(Owning(owner, ms), o) == if o == owner then ms else []
  {
    if ms == [] {
    } else {
      var n := |ms| - 1;
      assert Owning(owner, ms)[..n] == Owning(owner, ms[..n]);
      OwningIs(owner, ms[..n], o);
    }
  }

  lemma {:induction false} ListAllIs(owners: seq<string>, m: ByOwner, o: string)
    requires forall x :: x in owners ==> x in m
    requires forall i, j :: 0 <= i < j < |owners| ==> owners[i] != owners[j]
    ensures OfOwner(ListAll(owners, m), o) == if o in owners then m[o] else []
  {
    if owners == [] {
    } else {
      var n := |owners| - 1;
      ListAllIs(owners[..n], m, o);
      OfOwnerAppend(ListAll(owners[..n], m), Owning(owners[n], m[owners[n]]), o);
      OwningIs(owners[n], m[owners[n]], o);
      assert owners == owners[..n] + [owners[n]];
    }
  }

  /** The markers of a document are, of each owner, exactly those stored, in their order. */
  lemma MarkersExact(d: ByDoc, doc: string, owner: string)
    ensures OfOwner(Markers(d, doc), owner) == MarkersOf(d, doc, owner)
  {
    if doc in d {
      TextOrder();
      var owners := Ordered(d[doc].Keys, Less);
      ListAllIs(owners, d[doc], owner);
    }
  }

  /** A marker is kept as it came, at its range counted from zero. */
  lemma TrackedAsItCame(ms: seq<Marker>, i: nat)
    requires i < |ms|
    ensures var t, r := TrackAll(ms)[i], ms[i].range;
            && t.marker == ms[i]
            && (1 <= r.startLine && 1 <= r.startColumn && 1 <= r.endLine && 1 <= r.endColumn
                && (r.startLine, r.startColumn) == (r.endLine, r.endColumn)
                ==> t.range == Span(Pos(r.startLine - 1, r.startColumn - 1), Pos(r.endLine - 1, r.endColumn - 1)))
            && (1 <= r.startLine < r.endLine && 1 <= r.startColumn && 1 <= r.endColumn
                ==> t.range == Span(Pos(r.startLine - 1, r.startColumn - 1), Pos(r.endLine - 1, r.endColumn - 1)))
  {
  }

  /** What an edit leaves of a list of markers: those it does not wholly replace, in order, each as it was but at the
      carried offsets. */
  ghost predicate CarriedAll(ls: seq<string>, eol: string, edit: WidgetRange, text: string, was: seq<Tracked>,
                             now: seq<Tracked>)
    requires ValidSpan(ls, edit) && AllInPlace(ls, was)
  {
    |now| == |was|
    && forall i :: 0 <= i < |now| ==>
         now[i].marker == was[i].marker && Refines(ls, eol, was[i].range, edit, text, Some(now[i].range))
  }

  lemma SurvivorsInPlace(ls: seq<string>, ms: seq<Tracked>, n: nat, edit: WidgetRange)
    requires |ms| == n + 1 && AllInPlace(ls, ms) && AllInPlace(ls, Survivors(ms[..n], edit))
    ensures AllInPlace(ls, Survivors(ms, edit))
  {
  }

  lemma {:induction false} KeptAreCarried(ls: seq<string>, eol: string, ms: seq<Tracked>, edit: WidgetRange,
                                          text: string)
    requires ValidSpan(ls, edit) && AllInPlace(ls, ms) && eol != ""
    ensures AllInPlace(ls, Survivors(ms, edit))
    ensures CarriedAll(ls, eol, edit, text, Survivors(ms, edit), Kept(ms, edit, text))
  {
    if ms == [] {
    } else {
      var n := |ms| - 1;
      KeptAreCarried(ls, eol, ms[..n], edit, text);
      SurvivorsInPlace(ls, ms, n, edit);
      TransformRefinesOffsets(ls, eol, ms[n].range, edit, text);
      MarkerExactly(ls, ms[n], edit, text);
      CarriedOneMore(ls, eol, ms, n, edit, text);
    }
  }

  lemma CarriedOneMore(ls: seq<string>, eol: string, ms: seq<Tracked>, n: nat, edit: WidgetRange, text: string)
    requires |ms| == n + 1 && ValidSpan(ls, edit) && AllInPlace(ls, ms)
    requires AllInPlace(ls, Survivors(ms[..n], edit)) && AllInPlace(ls, Survivors(ms, edit))
    requires CarriedAll(ls, eol, edit, text, Survivors(ms[..n], edit), Kept(ms[..n], edit, text))
    requires Carried(ms[n].range, edit, text).None? <==> Replaced(ms[n], edit)
    requires Refines(ls, eol, ms[n].range, edit, text, Carried(ms[n].range, edit, text))
    ensures CarriedAll(ls, eol, edit, text, Survivors(ms, edit), Kept(ms, edit, text))
  {
  }

  /** An edit carries the markers of every owner of its document so, and leaves those of every other. */
  lemma EditCarriesMarkers(d: ByDoc, ls: seq<string>, eol: string, doc: string, edit: WidgetRange, text: string,
                           k: string, owner: string)
    requires ValidSpan(ls, edit) && AllInPlace(ls, MarkersOf(d, k, owner)) && eol != ""
    ensures var was, now := MarkersOf(d, k, owner), MarkersOf(Edited(d, doc, edit, text), k, owner);
            if k != doc then now == was
            else AllInPlace(ls, Survivors(was, edit)) && CarriedAll(ls, eol, edit, text, Survivors(was, edit), now)
  {
    if k == doc {
      KeptAreCarried(ls, eol, MarkersOf(d, k, owner), edit, text);
      EditedMarkers(d, doc, edit, text, owner);
    }
  }

  lemma EditedMarkers(d: ByDoc, doc: string, edit: WidgetRange, text: string, owner: string)
    ensures MarkersOf(Edited(d, doc, edit, text), doc, owner) == Kept(MarkersOf(d, doc, owner), edit, text)
  {
  }

  /** A code counts by its text, whichever form it comes in. */
  lemma CodesCount(s: string)
    ensures CodeString(Some(CodeText(s))) == Some(s) && CodeString(Some(CodeObject(Some(s)))) == Some(s)
    ensures CodeString(Some(Other(s))) == Some(s)
    ensures CodeString(None).None? && CodeString(Some(Null)).None? && CodeString(Some(CodeObject(None))).None?
  {
  }

  // ---- how a marker is drawn -----------------------------------------------------------------

  /** The place of an empty range, and what it is widened to: the next character, or the last one at the end of a
      line, or nothing on an empty line. */
  lemma WidenedExactly(lines: seq<string>, r: WidgetRange, k: nat)
    requires ValidSpan(lines, r) && r.IsEmpty()
    requires Names(lines, r.start, Text.Loc(r.start.line, k))
    ensures var line := lines[r.start.line];
            Widened(lines, r)
              == if k < |line| then Span(r.start, Pos(r.start.line, Text.Units(line[..k + 1])))
                 else if k > 0 then Span(Pos(r.start.line, Text.Units(line[..k - 1])), r.start)
                 else r
  {
    var line, col := lines[r.start.line], r.start.col;
    Text.IndexOfExact(line, col, k);
    assert line[..|line|] == line;
    PrefixUnits(line, k, |line|);
    if k < |line| {
      UnitsStep(line, k);
      PrefixUnits(line, k + 1, |line|);
    } else if k > 0 {
      UnitsStep(line, k - 1);
      LastBefore(line, k, col);
    }
  }

  /** Just before the end of a line, the last boundary is that of its last scalar. */
  lemma LastBefore(line: string, k: nat, col: nat)
    requires 0 < k == |line| && col == Text.Units(line)
    requires Text.Units(line[..k]) == Text.Units(line[..k - 1]) + Text.Width(line[k - 1])
    ensures ClampedCol(line, col - 1) == Text.Units(line[..k - 1])
  {
    ClampedColIs(line, col - 1);
    var r := ClampedCol(line, col - 1);
    assert line[..k] == line;
    var i :| 0 <= i <= |line| && Text.Units(line[..i]) == r;
    if i == k {
    } else {
      PrefixUnits(line, i, k - 1);
    }
  }

  /** `x` shows `m`: an underline of its severity at its range, if the document has that and it is not empty, and else
      at the range clamped to the document and widened to a character. */
  ghost predicate ShowsMarker(m: Owned, version: nat, lines: seq<string>, x: Decoration) {
    && x == Decoration(x.id, version, Underline, x.severity, 0, x.range, "")
    && x.severity == Some(match m.1.marker.severity
                          case 8 => Severity.Error
                          case 4 => Warning
                          case 2 => Information
                          case _ => Hint)
    && (ValidSpan(lines, m.1.range) && !m.1.range.IsEmpty() ==> x.range == m.1.range)
    && (lines != [] ==> WidenedFrom(lines, m.1.range, x.range))
  }

  /** `to` is the range clamped, and widened if that is empty. */
  ghost predicate WidenedFrom(lines: seq<string>, from: WidgetRange, to: WidgetRange)
    requires lines != []
  {
    var r: WidgetRange := Clamped(lines, from);
    && ClampedBoth(lines, from, r)
    && if r.IsEmpty() then
         exists k :: Names(lines, r.start, Text.Loc(r.start.line, k)) && to == OneCharacter(lines, r.start, k)
       else to == r
  }

  ghost predicate ClampedBoth(lines: seq<string>, from: WidgetRange, to: WidgetRange)
    requires lines != []
  {
    || (ClampedExactly(lines, from.start, to.start) && ClampedExactly(lines, from.end, to.end))
    || (ClampedExactly(lines, from.start, to.end) && ClampedExactly(lines, from.end, to.start))
  }

  /** The character at the `k`-th scalar boundary of a line, or the one before the end of the line. */
  function OneCharacter(lines: seq<string>, p: Pos, k: nat): Span
    requires p.line < |lines| && k <= |lines[p.line]|
  {
    var line := lines[p.line];
    if k < |line| then Span(p, Pos(p.line, Text.Units(line[..k + 1])))
    else if k > 0 then Span(Pos(p.line, Text.Units(line[..k - 1])), p)
    else Span(p, p)
  }

  lemma DrawnShowsMarker(m: Owned, id: nat, version: nat, lines: seq<string>)
    ensures ShowsMarker(m, version, lines, Drawn(m, id, version, lines))
  {
    var from, r: WidgetRange := m.1.range, Clamped(lines, m.1.range);
    if lines != [] {
      ClampedValid(lines, from);
      ClampedPosValid(lines, from.start);
      ClampedPosValid(lines, from.end);
      if r.IsEmpty() {
        var at := Coords.At(lines, r.start);
        WidenedExactly(lines, r, at.index);
        assert Names(lines, r.start, Text.Loc(r.start.line, at.index));
      }
    }
  }

  /** Is the `i`-th marker drawn, under the id its label now has? */
  ghost predicate MarkerDrawn(t: Table, doc: string, ms: seq<Owned>, i: nat, version: nat, lines: seq<string>,
                              out: seq<Decoration>)
    requires i < |ms|
  {
    var k := Key(Diagnostic, doc, Label(Bases(ms), i));
    && k in t.byKey
    && exists j :: 0 <= j < |out| && out[j].id == t.byKey[k] && ShowsMarker(ms[i], version, lines, out[j])
  }

  /** While there is room, every marker of the document is drawn, under the id of its label, and nothing else is. */
  lemma EveryMarkerDrawn(d: ByDoc, doc: string, version: nat, lines: seq<string>, t: Table)
    requires Valid(t) && Roomy(Draw(d, doc, version, lines, t).0)
    ensures var r, ms := Draw(d, doc, version, lines, t), Markers(d, doc);
            && |r.1| == |ms|
            && forall i :: 0 <= i < |ms| ==> MarkerDrawn(r.0, doc, ms, i, version, lines, r.1)
  {
    var ms, r := Markers(d, doc), Draw(d, doc, version, lines, t);
    var names := Labels(Bases(ms));
    var ids := AskedEach(t, Diagnostic, doc, names).1;
    var ds := DrawnEach(ms, ids, version, lines);
    KeptHeld(t, Diagnostic, doc, names);
    ArrangedSame(ds);
    assert |r.1| == |ds| by {
      assert |multiset(r.1)| == |r.1| && |multiset(ds)| == |ds|;
    }
    forall i | 0 <= i < |ms|
      ensures MarkerDrawn(r.0, doc, ms, i, version, lines, r.1)
    {
      assert names[i] == Label(Bases(ms), i);
      DrawnShowsMarker(ms[i], ids[i], version, lines);
      assert ds[i] in multiset(r.1);
      var j :| 0 <= j < |r.1| && r.1[j] == ds[i];
    }
  }

  // ---- ids of markers said again -------------------------------------------------------------

  /** Two markers have the same key, apart from how many came before, exactly when they say the same: owner, severity,
      source, code and message; as long as owner, source and code have no bar. */
  lemma SameBaseExactly(a: Owned, b: Owned)
    requires NoBar(a.0) && NoBar(b.0)
    requires NoBar(OrEmpty(a.1.marker.source)) && NoBar(OrEmpty(b.1.marker.source))
    requires NoBar(OrEmpty(CodeString(a.1.marker.code))) && NoBar(OrEmpty(CodeString(b.1.marker.code)))
    ensures Base(a) == Base(b) <==> SaysTheSame(a, b)
  {
    if Base(a) == Base(b) {
      var k, l := a.1.marker, b.1.marker;
      var c, e := OrEmpty(CodeString(k.code)), OrEmpty(CodeString(l.code));
      DecimalNoBar(k.severity);
      DecimalNoBar(l.severity);
      var x3, y3 := Barred(c, k.message), Barred(e, l.message);
      var x2, y2 := Barred(OrEmpty(k.source), x3), Barred(OrEmpty(l.source), y3);
      var x1, y1 := Barred(Digits(k.severity), x2), Barred(Digits(l.severity), y2);
      FirstBar(a.0, x1, b.0, y1);
      FirstBar(Digits(k.severity), x2, Digits(l.severity), y2);
      FirstBar(OrEmpty(k.source), x3, OrEmpty(l.source), y3);
      FirstBar(c, k.message, e, l.message);
      DigitsInjective(k.severity, l.severity);
    }
  }

  predicate SaysTheSame(a: Owned, b: Owned) {
    var k, l := a.1.marker, b.1.marker;
    && a.0 == b.0 && k.severity == l.severity && OrEmpty(k.source) == OrEmpty(l.source)
    && OrEmpty(CodeString(k.code)) == OrEmpty(CodeString(l.code)) && k.message == l.message
  }

  lemma {:induction false} KnownStays(t: Table, doc: string, names: seq<string>, k: Key)
    requires k in t.byKey
    ensures var r := AskedEach(t, Diagnostic, doc, names); k in r.0.byKey && r.0.byKey[k] == t.byKey[k]
  {
    if names == [] {
    } else {
      var n := |names| - 1;
      KnownStays(t, doc, names[..n], k);
      AskedGrows(AskedEach(t, Diagnostic, doc, names[..n]).0, Key(Diagnostic, doc, names[n]));
    }
  }

  /** Whatever other markers come, go or move between two drawings, a marker drawn both times keeps its id: the `i`-th
      of the first and the `j`-th of the second, if they have the same base and as many of it before them. */
  lemma SaidAgainKeepsId(d: ByDoc, e: ByDoc, doc: string, version: nat, lines: seq<string>, t: Table, i: nat, j: nat)
    requires var u := Draw(d, doc, version, lines, t).0;
             Valid(t) && Roomy(u) && Roomy(AskedEach(u, Diagnostic, doc, Labels(Bases(Markers(e, doc)))).0)
    requires var a, b := Bases(Markers(d, doc)), Bases(Markers(e, doc));
             && i < |a| && j < |b| && a[i] == b[j]
             && multiset(a[..i])[a[i]] == multiset(b[..j])[b[j]]
    ensures var u := Draw(d, doc, version, lines, t).0;
            AskedEach(t, Diagnostic, doc, Labels(Bases(Markers(d, doc)))).1[i]
              == AskedEach(u, Diagnostic, doc, Labels(Bases(Markers(e, doc)))).1[j]
  {
    SameLabelSameId(t, doc, Bases(Markers(d, doc)), Bases(Markers(e, doc)), i, j);
  }

  /** The table once the squiggles of these bases are drawn, and nothing else of the document is. */
  function DrawnTable(t: Table, doc: string, bases: seq<string>): Table {
    var r := AskedEach(t, Diagnostic, doc, Labels(bases));
    Retained(r.0, Diagnostic, doc, SetOf(r.1))
  }

  lemma SameLabelSameId(t: Table, doc: string, a: seq<string>, b: seq<string>, i: nat, j: nat)
    requires Valid(t) && Roomy(DrawnTable(t, doc, a))
    requires Roomy(AskedEach(DrawnTable(t, doc, a), Diagnostic, doc, Labels(b)).0)
    requires i < |a| && j < |b| && a[i] == b[j] && multiset(a[..i])[a[i]] == multiset(b[..j])[b[j]]
    ensures AskedEach(t, Diagnostic, doc, Labels(a)).1[i]
         == AskedEach(DrawnTable(t, doc, a), Diagnostic, doc, Labels(b)).1[j]
  {
    KeptHeld(t, Diagnostic, doc, Labels(a));
    assert Labels(a)[i] == Labels(b)[j];
    KnownAnswered(DrawnTable(t, doc, a), doc, Labels(b), j);
  }

  lemma KnownAnswered(u: Table, doc: string, names: seq<string>, j: nat)
    requires Valid(u) && Roomy(AskedEach(u, Diagnostic, doc, names).0)
    requires j < |names| && Key(Diagnostic, doc, names[j]) in u.byKey
    ensures AskedEach(u, Diagnostic, doc, names).1[j] == u.byKey[Key(Diagnostic, doc, names[j])]
  {
    KnownStays(u, doc, names, Key(Diagnostic, doc, names[j]));
    AskedEachHeld(u, Diagnostic, doc, names);
  }

  /** After a drawing the table knows, of this document's squiggles, exactly those drawn. */
  lemma OnlyDrawnKnown(d: ByDoc, doc: string, version: nat, lines: seq<string>, t: Table, name: string)
    requires Valid(t) && Roomy(Draw(d, doc, version, lines, t).0)
    ensures Key(Diagnostic, doc, name) in Draw(d, doc, version, lines, t).0.byKey
       <==> name in Labels(Bases(Markers(d, doc)))
  {
    OnlyAskedKnown(t, doc, Labels(Bases(Markers(d, doc))), name);
  }

  lemma OnlyAskedKnown(t: Table, doc: string, names: seq<string>, name: string)
    requires Valid(t) && Roomy(AskedEach(t, Diagnostic, doc, names).0)
    ensures var r := AskedEach(t, Diagnostic, doc, names);
            Key(Diagnostic, doc, name) in Retained(r.0, Diagnostic, doc, SetOf(r.1)).byKey <==> name in names
  {
    KeptHeld(t, Diagnostic, doc, names);
    AskedEachHeld(t, Diagnostic, doc, names);
    var r, k := AskedEach(t, Diagnostic, doc, names), Key(Diagnostic, doc, name);
    if name in names {
      var i :| 0 <= i < |names| && names[i] == name;
    }
    if k in r.0.byKey && r.0.byKey[k] in r.1 {
      var i :| 0 <= i < |r.1| && r.1[i] == r.0.byKey[k];
      assert r.0.byKey[Key(Diagnostic, doc, names[i])] == r.1[i];
    }
  }
}
