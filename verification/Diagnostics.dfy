/** Diagnostics as squiggles that move with edits (`ember/editor/src/diagnostics.rs`). */
module Diagnostics {
  import opened Wrappers
  import opened Coords
  import opened Ordering
  import opened Keys
  import opened Decorations
  import opened Ids
  import Text
  import Mirror

  /** A diagnostic code as it comes: nothing, text, an object that may hold a value, or another value in its JSON
      form. */
  datatype Code = Null | CodeText(s: string) | CodeObject(value: Option<string>) | Other(json: string)

  function CodeString(code: Option<Code>): Option<string> {
    match code
    case None | Some(Null) => None
    case Some(CodeText(s)) => Some(s)
    case Some(CodeObject(value)) => value
    case Some(Other(json)) => Some(json)
  }

  datatype Marker = Marker(code: Option<Code>, severity: nat, message: string, source: Option<string>,
      range: Mirror.Range)

  datatype Tracked = Tracked(marker: Marker, range: WidgetRange)

  type ByOwner = map<string, seq<Tracked>>

  type ByDoc = map<string, ByOwner>

  function Track(m: Marker): Tracked {
    Tracked(m, FromExthost(m.range))
  }

  function TrackAll(ms: seq<Marker>): (r: seq<Tracked>)
    ensures |r| == |ms| && forall i :: 0 <= i < |r| ==> r[i] == Track(ms[i])
  {
    seq(|ms|, i requires 0 <= i < |ms| => Track(ms[i]))
  }

  // ---- storing -------------------------------------------------------------------------------

  /** One document's markers of one owner replaced; an empty list is none. */
  function Changed(d: ByDoc, owner: string, doc: string, markers: Option<seq<Marker>>): ByDoc {
    var owners: ByOwner := if doc in d then d[doc] else map[];
    var owners' := if markers.Some? && markers.value != [] then owners[owner := TrackAll(markers.value)]
        else owners - {owner};
    if owners' == map[] then d - {doc} else d[doc := owners']
  }

  function ChangedEach(d: ByDoc, owner: string, entries: seq<(string, Option<seq<Marker>>)>): ByDoc {
    if entries == [] then d
    else
      var n := |entries| - 1;
      Changed(ChangedEach(d, owner, entries[..n]), owner, entries[n].0, entries[n].1)
  }

  function Cleared(d: ByDoc, owner: string): ByDoc {
    map k | k in d && d[k] - {owner} != map[] :: d[k] - {owner}
  }

  function Kept(ms: seq<Tracked>, edit: WidgetRange, text: string): seq<Tracked> {
    if ms == [] then []
    else
      var n := |ms| - 1;
      var before := Kept(ms[..n], edit, text);
      match Carried(ms[n].range, edit, text)
      case Some(r) => before + [ms[n].(range := r)]
      case None => before
  }

  function KeptEach(owners: ByOwner, edit: WidgetRange, text: string): ByOwner {
    map o | o in owners :: Kept(owners[o], edit, text)
  }

  function Edited(d: ByDoc, doc: string, edit: WidgetRange, text: string): ByDoc {
    if doc !in d then d else d[doc := KeptEach(d[doc], edit, text)]
  }

  /** The markers of one owner in one document. */
  function MarkersOf(d: ByDoc, doc: string, owner: string): seq<Tracked> {
    if doc in d && owner in d[doc] then d[doc][owner] else []
  }

  /** No document is kept without owners. */
  predicate NoneEmpty(d: ByDoc) {
    forall doc :: doc in d ==> d[doc] != map[]
  }

  lemma ChangedExactly(d: ByDoc, owner: string, doc: string, markers: Option<seq<Marker>>)
    requires NoneEmpty(d)
    ensures var r := Changed(d, owner, doc, markers);
            && NoneEmpty(r)
            && MarkersOf(r, doc, owner) == (if markers.Some? then TrackAll(markers.value) else [])
            && forall k, o :: k != doc || o != owner ==> MarkersOf(r, k, o) == MarkersOf(d, k, o)
  {
    var owners: ByOwner := if doc in d then d[doc] else map[];
    var r := Changed(d, owner, doc, markers);
    assert TrackAll([]) == [];
    if markers.Some? {
      assert owner in owners[owner := TrackAll(markers.value)];
    }
    forall o | o != owner
      ensures MarkersOf(r, doc, o) == MarkersOf(d, doc, o)
    {
      assert o in owners ==> o in owners - {owner};
    }
  }

  /** The last entry of a document counts. */
  function LastFor(entries: seq<(string, Option<seq<Marker>>)>, doc: string): Option<Option<seq<Marker>>> {
    if entries == [] then None
    else
      var n := |entries| - 1;
      if entries[n].0 == doc then Some(entries[n].1) else LastFor(entries[..n], doc)
  }

  /** Of every document named, the owner's markers are those of its last entry; nothing else changes. */
  lemma {:induction false} ChangedEachExactly(d: ByDoc, owner: string, entries: seq<(string, Option<seq<Marker>>)>,
      doc: string, o: string)
    requires NoneEmpty(d)
    ensures var r, last := ChangedEach(d, owner, entries), LastFor(entries, doc);
            && NoneEmpty(r)
            && MarkersOf(r, doc, o) ==
                 if o != owner || last.None? then MarkersOf(d, doc, o)
                 else if last.value.Some? then TrackAll(last.value.value) else []
  {
    if entries == [] {
    } else {
      var n := |entries| - 1;
      ChangedEachExactly(d, owner, entries[..n], doc, o);
      ChangedExactly(ChangedEach(d, owner, entries[..n]), owner, entries[n].0, entries[n].1);
    }
  }

  lemma ClearedExactly(d: ByDoc, owner: string, doc: string, o: string)
    ensures NoneEmpty(Cleared(d, owner))
    ensures MarkersOf(Cleared(d, owner), doc, o) == if o == owner then [] else MarkersOf(d, doc, o)
  {
    if doc in d && o != owner && o in d[doc] {
      assert o in d[doc] - {owner};
    }
  }

  // ---- keys ----------------------------------------------------------------------------------

  /** A marker and whose it is. */
  type Owned = (string, Tracked)

  function Owning(owner: string, ms: seq<Tracked>): seq<Owned> {
    seq(|ms|, i requires 0 <= i < |ms| => (owner, ms[i]))
  }

  function ListAll(owners: seq<string>, m: ByOwner): seq<Owned>
    requires forall o :: o in owners ==> o in m
  {
    if owners == [] then []
    else
      var n := |owners| - 1;
      ListAll(owners[..n], m) + Owning(owners[n], m[owners[n]])
  }

  /** Every marker of a document with its owner, owners in name order. */
  function Markers(d: ByDoc, doc: string): seq<Owned> {
    if doc !in d then []
    else
      TextOrder();
      ListAll(Ordered(d[doc].Keys, Less), d[doc])
  }

  function OrEmpty(s: Option<string>): string {
    if s.Some? then s.value else ""
  }

  /** What a marker says and who says it, wherever it is. */
  function Base(m: Owned): string {
    var k := m.1.marker;
    Barred(m.0, Barred(Digits(k.severity), Barred(OrEmpty(k.source), Barred(OrEmpty(CodeString(k.code)), k.message))))
  }

  function Bases(ms: seq<Owned>): (r: seq<string>)
    ensures |r| == |ms|
  {
    seq(|ms|, i requires 0 <= i < |ms| => Base(ms[i]))
  }

  /** A base and its number among the same ones before it. */
  function Label(bases: seq<string>, i: nat): string
    requires i < |bases|
  {
    Barred(bases[i], Digits(multiset(bases[..i])[bases[i]]))
  }

  function Labels(bases: seq<string>): (r: seq<string>)
    ensures |r| == |bases|
  {
    seq(|bases|, i requires 0 <= i < |bases| => Label(bases, i))
  }

  /** No two markers of a document have the same name, whatever bars their texts hold. */
  lemma LabelsDistinct(bases: seq<string>)
    ensures forall i, j :: 0 <= i < j < |bases| ==> Labels(bases)[i] != Labels(bases)[j]
  {
    forall i, j | 0 <= i < j < |bases|
      ensures Label(bases, i) != Label(bases, j)
    {
      LabelsDiffer(bases, i, j);
    }
  }

  lemma LabelsDiffer(bases: seq<string>, i: nat, j: nat)
    requires i < j < |bases|
    ensures Label(bases, i) != Label(bases, j)
  {
    var m, n := multiset(bases[..i])[bases[i]], multiset(bases[..j])[bases[j]];
    DecimalNoBar(m);
    DecimalNoBar(n);
    DigitsInjective(m, n);
    if Label(bases, i) == Label(bases, j) {
      LastBar(bases[i], Digits(m), bases[j], Digits(n));
      OccurrenceGrows(bases, i, j);
    }
  }

  // ---- drawing -------------------------------------------------------------------------------

  /** An empty range covers the next character, or the last one at the end of a line. */
  function Widened(lines: seq<string>, range: WidgetRange): WidgetRange {
    if !range.IsEmpty() || range.start.line >= |lines| then range
    else
      var line := lines[range.start.line];
      var len := Text.Units(line);
      if range.start.col < len then
        var i := Text.IndexOf(line, range.start.col);
        var width := if i.Some? && i.value < |line| then Text.Width(line[i.value]) else 1;
        var end := if range.start.col + width < len then range.start.col + width else len;
        Span(range.start, Pos(range.start.line, end))
      else if range.start.col > 0 then
        BackUp(line, range.start.col);
        Span(Pos(range.start.line, ClampedCol(line, range.start.col - 1)), range.end)
      else range
  }

  lemma BackUp(line: string, col: nat)
    requires col > 0
    ensures ClampedCol(line, col - 1) <= col - 1
  {
    ClampedColIs(line, col - 1);
  }

  function Drawn(m: Owned, id: nat, version: nat, lines: seq<string>): Decoration {
    var range: WidgetRange := Widened(lines, Clamped(lines, m.1.range));
    Decoration(id, version, Underline, Some(FromMarker(m.1.marker.severity)), 0, range, "")
  }

  function DrawnEach(ms: seq<Owned>, ids: seq<nat>, version: nat, lines: seq<string>): (r: seq<Decoration>)
    requires |ids| == |ms|
    ensures |r| == |ms| && forall i :: 0 <= i < |r| ==> r[i] == Drawn(ms[i], ids[i], version, lines)
  {
    seq(|ms|, i requires 0 <= i < |ms| => Drawn(ms[i], ids[i], version, lines))
  }

  /** The decorations of a document, and the id table after they were computed. */
  function Draw(d: ByDoc, doc: string, version: nat, lines: seq<string>, t: Table): (Table, seq<Decoration>) {
    var ms := Markers(d, doc);
    var asked := AskedEach(t, Diagnostic, doc, Labels(Bases(ms)));
    (Retained(asked.0, Diagnostic, doc, SetOf(asked.1)), Arranged(DrawnEach(ms, asked.1, version, lines)))
  }

  /** No two share an id, none is zero, and all are of the diagnostics' space. */
  predicate Identified(ds: seq<Decoration>) {
    DistinctIds(ds) && forall x :: x in ds ==> x.id != 0 && SpaceOf(x.id) == Some(Diagnostic)
  }

  /** While there is room, the squiggles of a document have ids of their own: none zero, no two the same. */
  lemma SquigglesIdentified(d: ByDoc, doc: string, version: nat, lines: seq<string>, t: Table)
    requires Valid(t) && Roomy(Draw(d, doc, version, lines, t).0)
    ensures var r := Draw(d, doc, version, lines, t); Valid(r.0) && Identified(r.1)
  {
    var ms := Markers(d, doc);
    var asked := AskedEach(t, Diagnostic, doc, Labels(Bases(ms)));
    LabelsAsked(t, doc, Bases(ms));
    DrawnIdentified(ms, asked.1, version, lines);
  }

  predicate OwnIds(ids: seq<nat>) {
    && (forall i, j :: 0 <= i < j < |ids| ==> ids[i] != ids[j])
    && forall i :: 0 <= i < |ids| ==> ids[i] != 0 && SpaceOf(ids[i]) == Some(Diagnostic)
  }

  lemma LabelsAsked(t: Table, doc: string, bases: seq<string>)
    requires Valid(t) && Roomy(AskedEach(t, Diagnostic, doc, Labels(bases)).0)
    ensures var r := AskedEach(t, Diagnostic, doc, Labels(bases));
            OwnIds(r.1) && Valid(Retained(r.0, Diagnostic, doc, SetOf(r.1)))
  {
    LabelsDistinct(bases);
    AskedEachDistinct(t, Diagnostic, doc, Labels(bases));
    KeptHeld(t, Diagnostic, doc, Labels(bases));
  }

  lemma DrawnIdentified(ms: seq<Owned>, ids: seq<nat>, version: nat, lines: seq<string>)
    requires |ids| == |ms| && OwnIds(ids)
    ensures Identified(Arranged(DrawnEach(ms, ids, version, lines)))
  {
    ArrangedIdentified(DrawnEach(ms, ids, version, lines));
  }

  lemma ArrangedIdentified(ds: seq<Decoration>)
    requires DistinctIds(ds) && forall i :: 0 <= i < |ds| ==> ds[i].id != 0 && SpaceOf(ds[i].id) == Some(Diagnostic)
    ensures Identified(Arranged(ds))
  {
    ArrangedDistinct(ds);
    ArrangedSame(ds);
    forall x | x in Arranged(ds)
      ensures x.id != 0 && SpaceOf(x.id) == Some(Diagnostic)
    {
      assert x in multiset(Arranged(ds));
      var i :| 0 <= i < |ds| && ds[i] == x;
    }
  }

  lemma DrawnNext(d: ByDoc, doc: string, version: nat, lines: seq<string>, t: Table)
    ensures t.next <= Draw(d, doc, version, lines, t).0.next
  {
    AskedEachGrows(t, Diagnostic, doc, Labels(Bases(Markers(d, doc))));
  }

  /** The same after any run of id traffic with fewer than 2^56 ids given out. */
  lemma SquigglesIdentifiedAfterAnyRun(d: ByDoc, doc: string, version: nat, lines: seq<string>, t: Table)
    requires Reached(t) && Roomy(Draw(d, doc, version, lines, t).0)
    ensures Identified(Draw(d, doc, version, lines, t).1)
  {
    DrawnNext(d, doc, version, lines, t);
    ReachedValid(t);
    SquigglesIdentified(d, doc, version, lines, t);
  }

  /** The same markers, wherever edits moved them. */
  predicate SameSaid(a: seq<Owned>, b: seq<Owned>) {
    |a| == |b| && forall i :: 0 <= i < |a| ==> a[i].0 == b[i].0 && a[i].1.marker == b[i].1.marker
  }

  /** An edit drops exactly the markers whose non-empty range it wholly replaces, keeps the others in order,
      and leaves each at a range of the edited document. */
  lemma {:induction false} KeptExactly(ls: seq<string>, ms: seq<Tracked>, edit: WidgetRange, text: string)
    requires ValidSpan(ls, edit) && AllInPlace(ls, ms)
    ensures var r := Kept(ms, edit, text);
            Said(r) == Said(Survivors(ms, edit)) && AllInPlace(AfterEdit(ls, edit, text), r)
  {
    if ms == [] {
    } else {
      var n := |ms| - 1;
      KeptExactly(ls, ms[..n], edit, text);
      MarkerExactly(ls, ms[n], edit, text);
      LastKept(ms, n, edit, text);
      LastInPlace(AfterEdit(ls, edit, text), ms, n, edit, text);
    }
  }

  /** Every marker is at a range of the document. */
  predicate AllInPlace(ls: seq<string>, ms: seq<Tracked>) {
    forall i :: 0 <= i < |ms| ==> ValidSpan(ls, ms[i].range)
  }

  lemma LastInPlace(after: seq<string>, ms: seq<Tracked>, n: nat, edit: WidgetRange, text: string)
    requires |ms| == n + 1 && AllInPlace(after, Kept(ms[..n], edit, text))
    requires var r := Carried(ms[n].range, edit, text); r.Some? ==> ValidSpan(after, r.value)
    ensures AllInPlace(after, Kept(ms, edit, text))
  {
  }

  lemma LastKept(ms: seq<Tracked>, n: nat, edit: WidgetRange, text: string)
    requires |ms| == n + 1 && (Carried(ms[n].range, edit, text).None? <==> Replaced(ms[n], edit))
    requires Said(Kept(ms[..n], edit, text)) == Said(Survivors(ms[..n], edit))
    ensures Said(Kept(ms, edit, text)) == Said(Survivors(ms, edit))
  {
    var r := Carried(ms[n].range, edit, text);
    if r.Some? {
      SaidMore(Kept(ms[..n], edit, text), ms[n], r.value);
      SaidMore(Survivors(ms[..n], edit), ms[n], ms[n].range);
    }
  }

  lemma SaidMore(ms: seq<Tracked>, m: Tracked, range: WidgetRange)
    ensures Said(ms + [m.(range := range)]) == Said(ms) + [m.marker]
  {
  }

  lemma MarkerExactly(ls: seq<string>, m: Tracked, edit: WidgetRange, text: string)
    requires ValidSpan(ls, edit) && ValidSpan(ls, m.range)
    ensures var r := Carried(m.range, edit, text);
            && (r.None? <==> Replaced(m, edit))
            && (r.Some? ==> ValidSpan(AfterEdit(ls, edit, text), r.value))
  {
    DroppedExactly(ls, m.range, edit, text);
    TransformRefinesOffsets(ls, "\n", m.range, edit, text);
  }

  /** Is the non-empty range of a marker wholly replaced? */
  predicate Replaced(m: Tracked, edit: WidgetRange) {
    !m.range.IsEmpty() && edit.start.NotAfter(m.range.start) && m.range.end.NotAfter(edit.end)
  }

  /** The markers an edit does not wholly replace. */
  function Survivors(ms: seq<Tracked>, edit: WidgetRange): seq<Tracked> {
    if ms == [] then []
    else
      var n := |ms| - 1;
      Survivors(ms[..n], edit) + if Replaced(ms[n], edit) then [] else [ms[n]]
  }

  function Said(ms: seq<Tracked>): seq<Marker> {
    seq(|ms|, i requires 0 <= i < |ms| => ms[i].marker)
  }

  /** The edit wholly replaces none of these markers. */
  predicate NoneReplaced(ms: seq<Tracked>, edit: WidgetRange, text: string) {
    forall i :: 0 <= i < |ms| ==> Carried(ms[i].range, edit, text).Some?
  }

  lemma {:induction false} KeptAll(ms: seq<Tracked>, edit: WidgetRange, text: string)
    requires NoneReplaced(ms, edit, text)
    ensures var r := Kept(ms, edit, text);
            |r| == |ms| && forall i :: 0 <= i < |ms| ==> r[i] == ms[i].(range := Carried(ms[i].range, edit, text).value)
  {
    if ms == [] {
    } else {
      KeptAll(ms[..|ms| - 1], edit, text);
    }
  }

  lemma {:induction false} ListAllSaysTheSame(owners: seq<string>, a: ByOwner, b: ByOwner)
    requires forall o :: o in owners ==> o in a && o in b && |a[o]| == |b[o]|
    requires forall o, i :: o in owners && 0 <= i < |a[o]| ==> a[o][i].marker == b[o][i].marker
    ensures SameSaid(ListAll(owners, a), ListAll(owners, b))
  {
    if owners == [] {
    } else {
      var n := |owners| - 1;
      assert owners[n] in owners;
      ListAllSaysTheSame(owners[..n], a, b);
    }
  }

  /** An edit that wholly replaces no marker of a document leaves all it says, so every id stays. */
  lemma EditSaysTheSame(d: ByDoc, doc: string, edit: WidgetRange, text: string)
    requires doc in d && forall owner :: owner in d[doc] ==> NoneReplaced(d[doc][owner], edit, text)
    ensures SameSaid(Markers(d, doc), Markers(Edited(d, doc, edit, text), doc))
  {
    TextOrder();
    var a, b := d[doc], Edited(d, doc, edit, text)[doc];
    assert a.Keys == b.Keys;
    forall owner | owner in a
      ensures |a[owner]| == |b[owner]| && forall i :: 0 <= i < |a[owner]| ==> a[owner][i].marker == b[owner][i].marker
    {
      KeptAll(a[owner], edit, text);
    }
    ListAllSaysTheSame(Ordered(a.Keys, Less), a, b);
  }

  /** Markers that only moved keep their ids, one by one, when drawn again. */
  lemma MovedKeepIds(d: ByDoc, e: ByDoc, doc: string, version: nat, lines: seq<string>, t: Table)
    requires Valid(t) && Roomy(Draw(d, doc, version, lines, t).0)
    requires SameSaid(Markers(d, doc), Markers(e, doc))
    ensures var first := AskedEach(t, Diagnostic, doc, Labels(Bases(Markers(d, doc))));
            var u := Draw(d, doc, version, lines, t).0;
            AskedEach(u, Diagnostic, doc, Labels(Bases(Markers(e, doc)))) == (u, first.1)
  {
    var names := Labels(Bases(Markers(d, doc)));
    assert Bases(Markers(d, doc)) == Bases(Markers(e, doc));
    KeptHeld(t, Diagnostic, doc, names);
    AskedAgain(Draw(d, doc, version, lines, t).0, Diagnostic, doc, names, AskedEach(t, Diagnostic, doc, names).1);
  }

  /** A squiggle is a range of the document, and covers at least a character unless its line is empty. */
  lemma SquiggleShows(lines: seq<string>, range: WidgetRange)
    requires lines != []
    ensures var r := Widened(lines, Clamped(lines, range));
            && ValidSpan(lines, r)
            && (r.IsEmpty() ==> r.start.line < |lines| && lines[r.start.line] == "")
  {
    var r: WidgetRange := Clamped(lines, range);
    ClampedValid(lines, range);
    if r.IsEmpty() {
      WidenedShows(lines, r);
    }
  }

  lemma WidenedShows(lines: seq<string>, r: WidgetRange)
    requires ValidSpan(lines, r) && r.IsEmpty()
    ensures var w := Widened(lines, r);
            && ValidSpan(lines, w)
            && (w.IsEmpty() ==> lines[r.start.line] == "")
  {
    var at := Coords.At(lines, r.start);
    var line := lines[at.line];
    var w := Widened(lines, r);
    Text.IndexOfExact(line, r.start.col, at.index);
    assert line[..|line|] == line;
    PrefixUnits(line, at.index, |line|);
    if at.index < |line| {
      UnitsStep(line, at.index);
      PrefixUnits(line, at.index + 1, |line|);
      PlaceExact(lines, w.end, Text.Loc(at.line, at.index + 1));
    } else if r.start.col > 0 {
      ClampedColIs(line, r.start.col - 1);
      var k :| 0 <= k <= |line| && Text.Units(line[..k]) == ClampedCol(line, r.start.col - 1);
      PlaceExact(lines, w.start, Text.Loc(at.line, k));
    }
  }

  function CountIn(seen: map<string, nat>, b: string): nat {
    if b in seen then seen[b] else 0
  }

  ghost predicate Counted(bases: seq<string>, n: nat, seen: map<string, nat>) {
    n <= |bases| && forall b :: CountIn(seen, b) == multiset(bases[..n])[b]
  }

  /** The first `n` markers of `ms` drawn. */
  ghost predicate DrawnSoFar(ms: seq<Owned>, n: nat, doc: string, version: nat, lines: seq<string>, before: Table,
                             seen: map<string, nat>, now: Table, asked: seq<nat>, live: set<nat>,
                             out: seq<Decoration>) {
    && n <= |ms| && |asked| == n
    && Counted(Bases(ms), n, seen)
    && (now, asked) == AskedEach(before, Diagnostic, doc, Labels(Bases(ms))[..n])
    && live == SetOf(asked)
    && out == DrawnEach(ms[..n], asked, version, lines)
  }

  lemma CountedOneMore(bases: seq<string>, n: nat, seen: map<string, nat>)
    requires n < |bases| && Counted(bases, n, seen)
    ensures Labels(bases)[n] == Barred(bases[n], Digits(CountIn(seen, bases[n])))
    ensures Counted(bases, n + 1, seen[bases[n] := CountIn(seen, bases[n]) + 1])
  {
    assert bases[..n + 1] == bases[..n] + [bases[n]];
  }

  lemma DrawnOneMore(ms: seq<Owned>, n: nat, doc: string, version: nat, lines: seq<string>, before: Table,
                     seen: map<string, nat>, now: Table, asked: seq<nat>, live: set<nat>, out: seq<Decoration>)
    requires n < |ms| && DrawnSoFar(ms, n, doc, version, lines, before, seen, now, asked, live, out)
    ensures var base := Base(ms[n]);
            var count := CountIn(seen, base);
            var r := Asked(now, Key(Diagnostic, doc, Barred(base, Digits(count))));
            DrawnSoFar(ms, n + 1, doc, version, lines, before, seen[base := count + 1], r.0,
                       asked + [r.1], live + {r.1}, out + [Drawn(ms[n], r.1, version, lines)])
  {
    var base := Base(ms[n]);
    var id := Asked(now, Key(Diagnostic, doc, Barred(base, Digits(CountIn(seen, base))))).1;
    CountedOneMore(Bases(ms), n, seen);
    AskedOneMore(before, doc, Labels(Bases(ms)), n, now, asked);
    ShownOneMore(ms, n, asked, id, version, lines);
  }

  lemma AskedOneMore(before: Table, doc: string, names: seq<string>, n: nat, now: Table, asked: seq<nat>)
    requires n < |names| && (now, asked) == AskedEach(before, Diagnostic, doc, names[..n])
    ensures var r := Asked(now, Key(Diagnostic, doc, names[n]));
            (r.0, asked + [r.1]) == AskedEach(before, Diagnostic, doc, names[..n + 1])
  {
    assert names[..n + 1][..n] == names[..n];
  }

  lemma ShownOneMore(ms: seq<Owned>, n: nat, ids: seq<nat>, id: nat, version: nat, lines: seq<string>)
    requires n < |ms| && |ids| == n
    ensures DrawnEach(ms[..n + 1], ids + [id], version, lines)
         == DrawnEach(ms[..n], ids, version, lines) + [Drawn(ms[n], id, version, lines)]
    ensures SetOf(ids + [id]) == SetOf(ids) + {id}
  {
  }

  lemma DrawnAll(d: ByDoc, doc: string, version: nat, lines: seq<string>, before: Table,
                 seen: map<string, nat>, now: Table, asked: seq<nat>, live: set<nat>, out: seq<Decoration>)
    requires var ms := Markers(d, doc); DrawnSoFar(ms, |ms|, doc, version, lines, before, seen, now, asked, live, out)
    ensures (Retained(now, Diagnostic, doc, live), Arranged(out)) == Draw(d, doc, version, lines, before)
  {
    var ms := Markers(d, doc);
    assert ms[..|ms|] == ms && Labels(Bases(ms))[..|ms|] == Labels(Bases(ms));
  }

  /** One owner dropped from every document but those in `todo`, and which documents that touched. */
  ghost predicate DroppedSoFar(was: ByDoc, owner: string, todo: set<string>, now: ByDoc, touched: set<string>) {
    && now.Keys == was.Keys && todo <= was.Keys
    && (forall k :: k in was ==> now[k] == if k in todo then was[k] else was[k] - {owner})
    && forall k :: k in touched <==> k in was && k !in todo && owner in was[k]
  }

  lemma DroppedNext(was: ByDoc, owner: string, todo: set<string>, now: ByDoc, touched: set<string>, k: string)
    requires DroppedSoFar(was, owner, todo, now, touched) && k in todo
    ensures now[k] == was[k]
    ensures if owner in was[k] then DroppedSoFar(was, owner, todo - {k}, now[k := was[k] - {owner}], touched + {k})
            else DroppedSoFar(was, owner, todo - {k}, now, touched)
  {
    if owner !in was[k] {
      assert was[k] - {owner} == was[k];
    }
  }

  // ---- the object itself ---------------------------------------------------------------------

  class Diagnostics {
    var byDoc: ByDoc

    constructor ()
      ensures byDoc == map[]
    {
      byDoc := map[];
    }

    method ChangeMany(owner: string, entries: seq<(string, Option<seq<Marker>>)>) returns (touched: seq<string>)
      modifies this
      ensures byDoc == ChangedEach(old(byDoc), owner, entries)
      ensures |touched| == |entries| && forall i :: 0 <= i < |touched| ==> touched[i] == entries[i].0
    {
      touched := [];
      for n := 0 to |entries|
        invariant byDoc == ChangedEach(old(byDoc), owner, entries[..n])
        invariant |touched| == n && forall i :: 0 <= i < n ==> touched[i] == entries[i].0
      {
        assert entries[..n + 1][..n] == entries[..n];
        var (key, markers) := entries[n];
        var owners: ByOwner := if key in byDoc then byDoc[key] else map[];
        if markers.Some? && markers.value != [] {
          owners := owners[owner := TrackAll(markers.value)];
        } else {
          owners := owners - {owner};
        }
        byDoc := if owners == map[] then byDoc - {key} else byDoc[key := owners];
        touched := touched + [key];
      }
      assert entries[..|entries|] == entries;
    }

    method Clear(owner: string) returns (touched: set<string>)
      modifies this
      ensures byDoc == Cleared(old(byDoc), owner)
      ensures forall k :: k in touched <==> k in old(byDoc) && owner in old(byDoc)[k]
    {
      touched := DropOwner(owner);
      DropEmpty();
      assert byDoc == Cleared(old(byDoc), owner);
    }

    method DropOwner(owner: string) returns (touched: set<string>)
      modifies this
      ensures byDoc.Keys == old(byDoc).Keys
      ensures forall k :: k in byDoc ==> byDoc[k] == old(byDoc)[k] - {owner}
      ensures forall k :: k in touched <==> k in old(byDoc) && owner in old(byDoc)[k]
    {
      touched := {};
      var todo := byDoc.Keys;
      while todo != {}
        invariant DroppedSoFar(old(byDoc), owner, todo, byDoc, touched)
        decreases |todo|
      {
        var k :| k in todo;
        DroppedNext(old(byDoc), owner, todo, byDoc, touched, k);
        todo := todo - {k};
        if owner in byDoc[k] {
          byDoc := byDoc[k := byDoc[k] - {owner}];
          touched := touched + {k};
        }
      }
    }

    method DropEmpty()
      modifies this
      ensures forall k :: k in byDoc <==> k in old(byDoc) && old(byDoc)[k] != map[]
      ensures forall k :: k in byDoc ==> byDoc[k] == old(byDoc)[k]
    {
      var todo := byDoc.Keys;
      while todo != {}
        invariant todo <= old(byDoc).Keys
        invariant forall k :: k in byDoc <==> k in old(byDoc) && (k in todo || old(byDoc)[k] != map[])
        invariant forall k :: k in byDoc ==> byDoc[k] == old(byDoc)[k]
        decreases |todo|
      {
        var k :| k in todo;
        todo := todo - {k};
        if byDoc[k] == map[] {
          byDoc := byDoc - {k};
        }
      }
    }

    method OnEdit(doc: string, edit: WidgetRange, text: string)
      modifies this
      ensures byDoc == Edited(old(byDoc), doc, edit, text)
    {
      if doc !in byDoc {
        return;
      }
      var owners := KeepAll(byDoc[doc], edit, text);
      byDoc := byDoc[doc := owners];
    }

    static method KeepAll(was: ByOwner, edit: WidgetRange, text: string) returns (owners: ByOwner)
      ensures owners == KeptEach(was, edit, text)
    {
      owners := was;
      var todo := owners.Keys;
      while todo != {}
        invariant owners.Keys == was.Keys && todo <= was.Keys
        invariant forall o :: o in was ==> owners[o] == if o in todo then was[o] else Kept(was[o], edit, text)
        decreases |todo|
      {
        var o :| o in todo;
        todo := todo - {o};
        var kept := KeepMarkers(owners[o], edit, text);
        owners := owners[o := kept];
      }
    }

    static method KeepMarkers(ms: seq<Tracked>, edit: WidgetRange, text: string) returns (kept: seq<Tracked>)
      ensures kept == Kept(ms, edit, text)
    {
      kept := [];
      for i := 0 to |ms|
        invariant kept == Kept(ms[..i], edit, text)
      {
        assert ms[..i + 1][..i] == ms[..i];
        var r := Carried(ms[i].range, edit, text);
        if r.Some? {
          kept := kept + [ms[i].(range := r.value)];
        }
      }
      assert ms[..|ms|] == ms;
    }

    method Decorations(doc: string, version: nat, lines: seq<string>, ids: DecorationIds) returns (out: seq<Decoration>)
      modifies ids
      ensures (ids.View(), out) == Draw(byDoc, doc, version, lines, old(ids.View()))
    {
      var ms := Markers(byDoc, doc);
      ghost var before := ids.View();
      var live, seen;
      ghost var asked;
      live, out, seen, asked := DrawAll(ms, doc, version, lines, ids);
      DrawnAll(byDoc, doc, version, lines, before, seen, ids.View(), asked, live, out);
      ids.Keep(Diagnostic, doc, live);
      out := Arranged(out);
    }

    static method DrawAll(ms: seq<Owned>, doc: string, version: nat, lines: seq<string>, ids: DecorationIds)
      returns (live: set<nat>, out: seq<Decoration>, seen: map<string, nat>, ghost asked: seq<nat>)
      modifies ids
      ensures DrawnSoFar(ms, |ms|, doc, version, lines, old(ids.View()), seen, ids.View(), asked, live, out)
    {
      ghost var before := ids.View();
      live, out, seen, asked := {}, [], map[], [];
      for n := 0 to |ms|
        invariant DrawnSoFar(ms, n, doc, version, lines, before, seen, ids.View(), asked, live, out)
      {
        DrawnOneMore(ms, n, doc, version, lines, before, seen, ids.View(), asked, live, out);
        var base := Base(ms[n]);
        var count := CountIn(seen, base);
        seen := seen[base := count + 1];
        var id := ids.Id(Diagnostic, doc, Barred(base, Digits(count)));
        live := live + {id};
        asked := asked + [id];
        out := out + [Drawn(ms[n], id, version, lines)];
      }
    }
  }
}
