/** What an open document holds over a whole session, and what the extension host makes of its calls
    (`ember/editor/src/document.rs`). */
module OpenRuns {
  import opened Wrappers
  import opened Text
  import opened Mirror
  import opened OpenDocuments
  import Coords

  // ---- what a file, a change and a save leave ------------------------------------------------

  /** `o` holds a file just read: its lines, clean, at widget version 0, and the bytes to save are the file's exactly
      when all its line breaks are of the kind detected. */
  ghost predicate HoldsFile(o: Open, text: string, bom: bool, generation: nat) {
    && o.mirror.lines == Lines(text) && !o.mirror.dirty
    && (o.SaveBytes() == Utf8((if bom then [BOM] else []) + text) <==> OnlyBreaks(text, DetectEol(text)))
    && MatchesDisk(o, text) && o.cursor.None? && o.bom == bom
    && o.generation == generation && o.widgetVersion == 0
  }

  /** A file opened. */
  lemma OpenHolds(text: string, bom: bool, version: nat, generation: nat)
    ensures var o := OpenSpec(text, bom, version, generation);
            o.Valid() && HoldsFile(o, text, bom, generation) && o.ExtVersion() == version
  {
    FreshValid(text, version);
    OpenedAndSaved(text, bom, version, generation);
  }

  /** A reset replaces everything by the file given, whatever the document held, one version later. */
  lemma ResetHolds(o: Open, text: string, bom: bool, generation: nat)
    ensures var r := ResetSpec(o, text, bom, generation);
            r.Valid() && HoldsFile(r, text, bom, generation) && r.ExtVersion() == o.ExtVersion() + 1
  {
    OpenHolds(text, bom, o.ExtVersion() + 1, generation);
  }

  /** A change taken replaces the text between the two positions, in the document's line ends, and puts the cursor
      after it; the file it came from stays what it was. */
  lemma ChangeReplaces(o: Open, version: nat, span: Coords.Span, text: string)
    requires o.Valid() && ChangeSpec(o, version, span, text).result.Ok?
    ensures var n := ChangeSpec(o, version, span, text).doc;
            var content, r := o.mirror.Content(), Flat(o.mirror.lines, o.mirror.eol, TextEdit(span.ToExthost(), text));
            && r.from <= r.to <= |content| && r.text == Join(Lines(text), o.mirror.eol)
            && n.mirror.Content() == content[..r.from] + r.text + content[r.to..]
            && n.widgetVersion == version && n.cursor == Some(Coords.EndOfInsert(span.start, text))
            && n == o.(mirror := n.mirror, widgetVersion := n.widgetVersion, cursor := n.cursor)
  {
    ChangeAllOrNothing(o, version, span, text);
    OneReplaced(o.mirror, TextEdit(span.ToExthost(), text), o.extBase + version);
  }

  /** The cursor after a change taken is a place of the changed document, right behind the text put in. */
  lemma CursorBehindInsert(o: Open, version: nat, span: Coords.Span, text: string)
    requires o.Valid() && ChangeSpec(o, version, span, text).result.Ok?
    ensures var n := ChangeSpec(o, version, span, text).doc;
            var from := Flat(o.mirror.lines, o.mirror.eol, TextEdit(span.ToExthost(), text)).from;
            && n.cursor.Some? && Coords.ValidPos(n.mirror.lines, n.cursor.value)
            && Coords.Offset(n.mirror.lines, n.mirror.eol, n.cursor.value)
                 == from + |Join(Lines(text), o.mirror.eol)|
  {
    ChangeAllOrNothing(o, version, span, text);
    var e := TextEdit(span.ToExthost(), text);
    OneSpliced(o.mirror, e, o.extBase + version);
    SpliceEnd(o.mirror.lines, o.mirror.eol, span, text);
  }

  lemma SpliceEnd(ls: seq<string>, eol: string, span: Coords.Span, text: string)
    requires ValidRange(ls, span.ToExthost())
    ensures var r := span.ToExthost();
            var after, p := Splice(ls, From(ls, r), To(ls, r), text), Coords.EndOfInsert(span.start, text);
            && Coords.ValidPos(after, p)
            && Coords.Offset(after, eol, p) == FlatIndex(ls, eol, From(ls, r)) + |Join(Lines(text), eol)|
  {
    RangeIsSpan(ls, span);
    Coords.InsertEnd(ls, eol, span, text);
  }

  /** A range the mirror accepts is a span of the document, and the other way round. */
  lemma RangeIsSpan(ls: seq<string>, span: Coords.Span)
    ensures ValidRange(ls, span.ToExthost()) <==> Coords.ValidSpan(ls, span)
    ensures Coords.ValidSpan(ls, span) ==>
              && From(ls, span.ToExthost()) == Coords.At(ls, span.start)
              && To(ls, span.ToExthost()) == Coords.At(ls, span.end)
  {
  }

  /** A single accepted edit splices the lines. */
  lemma OneSpliced(d: Doc, e: TextEdit, version: nat)
    requires d.Valid() && ValidRange(d.lines, e.range) && version > d.version
    ensures ApplySpec(d, EditorChange([e], Normal, Some(version))).doc.lines
         == Splice(d.lines, From(d.lines, e.range), To(d.lines, e.range), e.text)
  {
    assert [e][..0] == [] && EndToStart([e]) == [e];
    assert ApplyEach(d.lines, d.eol, []) == Ok(Edited(d.lines, []));
    OneEdit(d, e, version);
    assert ApplyEach(d.lines, d.eol, [e]).Ok?;
  }

  /** A save that is done changes the text known to be on disk, if the bytes are text, and cleans the document if
      they are of its version; nothing else. */
  lemma SavedChanges(o: Open, version: nat, bytes: FileBytes)
    ensures var n := SavedSpec(o, version, bytes);
            && n == o.(diskText := n.diskText, mirror := o.mirror.(dirty := n.mirror.dirty))
            && (n.mirror.dirty <==> o.mirror.dirty && version != o.ExtVersion())
            && match bytes
               case NotUtf8(_) => n.diskText == o.diskText
               case Utf8(s) => MatchesDisk(n, if s != "" && s[0] == BOM then s[1..] else s)
  {
  }

  // ---- why an edit is refused ----------------------------------------------------------------

  /** The `k`-th scalar, or the end of the line, is at this column, counted from 1. */
  predicate StartsAt(line: string, k: int, column: nat) {
    0 <= k <= |line| && column == Units(line[..k]) + 1
  }

  ghost predicate IsColumn(line: string, column: nat) {
    exists k :: StartsAt(line, k, column)
  }

  /** Why no place has this line and column: there is no such line, or no scalar starts, and the line does not end, at
      that column. */
  ghost function PlaceError(ls: seq<string>, line: nat, column: nat): Option<EditError> {
    if line < 1 || line > |ls| then Some(LineOutOfRange)
    else if IsColumn(ls[line - 1], column) then None
    else Some(ColumnOutOfRange)
  }

  /** Why a range is refused: it ends before it starts, or its start is no place, or its end is none. */
  ghost function RangeError(ls: seq<string>, r: Range): Option<EditError> {
    if r.endLine < r.startLine || (r.endLine == r.startLine && r.endColumn < r.startColumn) then Some(EndBeforeStart)
    else if PlaceError(ls, r.startLine, r.startColumn).Some? then PlaceError(ls, r.startLine, r.startColumn)
    else PlaceError(ls, r.endLine, r.endColumn)
  }

  lemma PlaceRefused(ls: seq<string>, line: nat, column: nat)
    ensures match Locate(ls, line, column)
            case Ok(_) => PlaceError(ls, line, column).None?
            case Err(e) => PlaceError(ls, line, column) == Some(e)
  {
    if 1 <= line <= |ls| {
      var r := Locate(ls, line, column);
      if r.Ok? {
        LocateExact(ls, line, column, r.value);
      }
      var text := ls[line - 1];
      if r.Ok? {
        assert StartsAt(text, r.value.index, column);
      }
      forall k | StartsAt(text, k, column)
        ensures r.Ok?
      {
        LocateExact(ls, line, column, Loc(line - 1, k));
      }
    }
  }

  lemma RangeRefused(ls: seq<string>, r: Range)
    ensures CheckRange(ls, r) == RangeError(ls, r)
  {
    PlaceRefused(ls, r.startLine, r.startColumn);
    PlaceRefused(ls, r.endLine, r.endColumn);
  }

  /** The error of the first edit refused. */
  ghost function FirstError(ls: seq<string>, edits: seq<TextEdit>): Option<EditError> {
    if edits == [] then None
    else if RangeError(ls, edits[0].range).Some? then RangeError(ls, edits[0].range)
    else FirstError(ls, edits[1..])
  }

  lemma {:induction false} FirstRefused(ls: seq<string>, edits: seq<TextEdit>)
    ensures FirstBadRange(ls, edits) == FirstError(ls, edits)
  {
    if edits == [] {
    } else {
      RangeRefused(ls, edits[0].range);
      FirstRefused(ls, edits[1..]);
    }
  }

  /** A change is refused for the first of its edits that is, else because two overlap, else because its version is
      not a later one. */
  lemma RefusedFor(d: Doc, change: EditorChange)
    requires d.Valid()
    ensures var r, bad := ApplySpec(d, change).result, FirstError(d.lines, change.edits);
            if bad.Some? then r == Err(bad.value)
            else if !Spaced(EndToStart(change.edits)) then r == Err(Overlapping)
            else if change.version.Some? && change.version.value <= d.version then r == Err(VersionNotIncreasing)
            else r.Ok?
  {
    FirstRefused(d.lines, change.edits);
    NoBadRange(d.lines, change.edits);
    MultiCursorEdit(d, change);
  }

  // ---- over a whole session ------------------------------------------------------------------

  /** Does the event give the document a new text? */
  predicate Rewrites(o: Open, e: Event) {
    e.Reload? || (e.Change? && ChangeSpec(o, e.version, e.span, e.text).result.Ok?)
  }

  /** The text an event reads from, or writes to, the disk. */
  function DiskText(e: Event): Option<string> {
    match e
    case Reload(text, _, _) => Some(text)
    case SaveDone(_, bytes) => (match Decode(bytes) case Some(d) => Some(d.text) case None => None)
    case _ => None
  }

  lemma {:induction false} AfterMore(s: Session, es: seq<Event>, e: Event)
    ensures After(s, es + [e]) == Next(After(s, es), e)
    decreases |es|
  {
    if es == [] {
      assert [e][1..] == [];
    } else {
      assert (es + [e])[1..] == es[1..] + [e];
      AfterMore(Next(s, es[0]), es[1..], e);
    }
  }

  lemma AfterPrefix(s: Session, es: seq<Event>, n: nat)
    requires n < |es|
    ensures After(s, es[..n + 1]) == Next(After(s, es[..n]), es[n])
  {
    assert es[..n + 1] == es[..n] + [es[n]];
    AfterMore(s, es[..n], es[n]);
  }

  /** The same text in the same file. */
  predicate SameText(a: Open, b: Open) {
    && a.mirror.lines == b.mirror.lines && a.mirror.eol == b.mirror.eol && a.ExtVersion() == b.ExtVersion()
    && a.bom == b.bom && a.generation == b.generation && a.cursor == b.cursor && a.widgetVersion == b.widgetVersion
  }

  lemma Untouched(s: Session, e: Event)
    requires !Rewrites(s.doc, e)
    ensures SameText(Next(s, e).doc, s.doc)
  {
  }

  /** After a reload with no accepted change since, the document is the file reloaded: its lines, its mark, its
      generation, at widget version 0. */
  lemma {:induction false} SinceReload(s: Session, es: seq<Event>, i: nat, n: nat)
    requires i < n <= |es| && es[i].Reload?
    requires forall j :: i < j < n ==> !Rewrites(After(s, es[..j]).doc, es[j])
    ensures var o := After(s, es[..n]).doc;
            SameText(o, ResetSpec(After(s, es[..i]).doc, es[i].text, es[i].bom, es[i].generation))
  {
    AfterPrefix(s, es, n - 1);
    if n == i + 1 {
    } else {
      SinceReload(s, es, i, n - 1);
      Untouched(After(s, es[..n - 1]), es[n - 1]);
    }
  }

  /** After a reload or a finished save of some text, that text is known to be on disk until the next of either. */
  lemma {:induction false} DiskKnown(s: Session, es: seq<Event>, i: nat, n: nat)
    requires i < n <= |es| && DiskText(es[i]).Some?
    requires forall j :: i < j < n ==> DiskText(es[j]).None?
    ensures MatchesDisk(After(s, es[..n]).doc, DiskText(es[i]).value)
  {
    AfterPrefix(s, es, n - 1);
    if n == i + 1 {
    } else {
      DiskKnown(s, es, i, n - 1);
    }
  }

  // ---- the extension host's copy -------------------------------------------------------------

  /** The edits a list of changes asks for. */
  function EditsOf(changes: seq<ContentChange>): (es: seq<TextEdit>)
    ensures |es| == |changes|
    ensures forall i :: 0 <= i < |es| ==> es[i] == TextEdit(changes[i].range, changes[i].text)
  {
    seq(|changes|, i requires 0 <= i < |changes| => TextEdit(changes[i].range, changes[i].text))
  }

  /** What the host makes of a call: it replays reported changes, in the order given, on its own lines. */
  function Heard(h: Option<Doc>, call: Call): Option<Doc> {
    match call
    case Activate => h
    case Add(lines, eol, version, dirty) => Some(Doc(lines, eol, version, dirty))
    case Remove => None
    case _ => if h.None? then None else Some(HeardOf(h.value, call))
  }

  function HeardOf(d: Doc, call: Call): Doc {
    match call
    case ModelChanged(ev, dirty) =>
      (match ApplyEach(d.lines, d.eol, EditsOf(ev.changes))
       case Ok(done) => Doc(done.lines, ev.eol, ev.versionId, dirty)
       case Err(_) => d)
    case ModelSaved => d.(dirty := false)
    case DirtyStateChanged(dirty) => d.(dirty := dirty)
    case _ => d
  }

  function HeardAll(h: Option<Doc>, calls: seq<Call>): Option<Doc> {
    if calls == [] then h else Heard(HeardAll(h, calls[..|calls| - 1]), calls[|calls| - 1])
  }

  /** The calls an event makes. */
  function CallsOf(s: Session, e: Event): seq<Call> {
    match e
    case Change(version, span, text) =>
      (match ChangeSpec(s.doc, version, span, text).result case Ok(call) => [call] case Err(_) => [])
    case Reload(text, bom, generation) => [Remove] + AddCalls(ResetSpec(s.doc, text, bom, generation).mirror)
    case Capture => []
    case SaveDone(version, _) =>
      if version == s.doc.ExtVersion() then [ModelSaved] else [ModelSaved, DirtyStateChanged(true)]
  }

  /** The host's copy after a session that opened with `s`. */
  function HostAfter(s: Session, es: seq<Event>): Option<Doc> {
    if es == [] then HeardAll(None, AddCalls(s.doc.mirror))
    else
      var n := |es| - 1;
      HeardAll(HostAfter(s, es[..n]), CallsOf(After(s, es[..n]), es[n]))
  }

  /** The host's copy has the document's text, line end and version. */
  predicate UpToDate(h: Option<Doc>, d: Doc) {
    h.Some? && h.value.(dirty := d.dirty) == d
  }

  lemma HeardOne(h: Option<Doc>, call: Call)
    ensures HeardAll(h, [call]) == Heard(h, call)
  {
    assert [call][..0] == [];
  }

  lemma HeardTwo(h: Option<Doc>, a: Call, b: Call)
    ensures HeardAll(h, [a, b]) == Heard(Heard(h, a), b)
  {
    assert [a, b][..1] == [a];
    HeardOne(h, a);
  }

  lemma HeardThree(h: Option<Doc>, a: Call, b: Call, c: Call)
    ensures HeardAll(h, [a, b, c]) == Heard(Heard(Heard(h, a), b), c)
  {
    assert [a, b, c][..2] == [a, b];
    HeardTwo(h, a, b);
  }

  /** Replaying a reported change does to the lines what the edit did. */
  lemma ChangeReplays(ls: seq<string>, eol: string, e: TextEdit)
    requires ValidRange(ls, e.range) && StandardEol(eol)
    ensures var r := ApplyEach(ls, eol, EditsOf([PreEditChange(ls, eol, e)]));
            r.Ok? && r.value.lines == Splice(ls, From(ls, e.range), To(ls, e.range), e.text)
  {
    var again := TextEdit(e.range, Join(Lines(e.text), eol));
    var es := EditsOf([PreEditChange(ls, eol, e)]);
    assert es == [again];
    LinesUnbroken(e.text);
    LinesOfJoin(Lines(e.text), eol);
    assert es[..0] == [];
    assert ApplyEach(ls, eol, []) == Ok(Edited(ls, []));
  }

  lemma ChangeHeard(s: Session, h: Option<Doc>, e: Event)
    requires s.doc.Valid() && UpToDate(h, s.doc.mirror) && e.Change?
    ensures UpToDate(HeardAll(h, CallsOf(s, e)), Next(s, e).doc.mirror)
    ensures Rewrites(s.doc, e) ==> HeardAll(h, CallsOf(s, e)).value.dirty == Next(s, e).doc.mirror.dirty
    ensures !Rewrites(s.doc, e) ==> HeardAll(h, CallsOf(s, e)) == h
  {
    var o, edit := s.doc, TextEdit(e.span.ToExthost(), e.text);
    ChangeAllOrNothing(o, e.version, e.span, e.text);
    var a := ChangeSpec(o, e.version, e.span, e.text);
    if a.result.Ok? {
      TakenReplays(o, e.version, e.span, e.text);
      HeardOne(h, a.result.value);
    }
  }

  /** The call of a change taken says how the lines changed, and the new version and mark. */
  lemma TakenReplays(o: Open, version: nat, span: Coords.Span, text: string)
    requires o.Valid() && ChangeSpec(o, version, span, text).result.Ok?
    ensures var a := ChangeSpec(o, version, span, text); var d := a.doc.mirror;
            && a.result.value.ModelChanged? && a.result.value.dirty == d.dirty
            && var ev := a.result.value.event;
               var r := ApplyEach(o.mirror.lines, o.mirror.eol, EditsOf(ev.changes));
               r.Ok? && r.value.lines == d.lines && ev.eol == d.eol == o.mirror.eol && ev.versionId == d.version
  {
    var edit := TextEdit(span.ToExthost(), text);
    ChangeAllOrNothing(o, version, span, text);
    OneEdit(o.mirror, edit, o.extBase + version);
    OneSpliced(o.mirror, edit, o.extBase + version);
    ChangeReplays(o.mirror.lines, o.mirror.eol, edit);
  }

  lemma AddHeard(h: Option<Doc>, d: Doc)
    ensures HeardAll(h, AddCalls(d)) == Some(d) && HeardAll(h, [Remove] + AddCalls(d)) == Some(d)
  {
    HeardTwo(h, Activate, Add(d.lines, d.eol, d.version, d.dirty));
    HeardThree(h, Remove, Activate, Add(d.lines, d.eol, d.version, d.dirty));
    assert [Remove] + AddCalls(d) == [Remove, Activate, Add(d.lines, d.eol, d.version, d.dirty)];
  }

  lemma SaveHeard(s: Session, h: Option<Doc>, e: Event)
    requires UpToDate(h, s.doc.mirror) && e.SaveDone?
    ensures var h' := HeardAll(h, CallsOf(s, e));
            UpToDate(h', Next(s, e).doc.mirror) && (h'.value.dirty <==> e.version != s.doc.ExtVersion())
  {
    HeardOne(h, ModelSaved);
    HeardTwo(h, ModelSaved, DirtyStateChanged(true));
  }

  lemma EventHeard(s: Session, h: Option<Doc>, e: Event)
    requires s.doc.Valid() && UpToDate(h, s.doc.mirror)
    ensures UpToDate(HeardAll(h, CallsOf(s, e)), Next(s, e).doc.mirror)
  {
    match e {
      case Change(_, _, _) => ChangeHeard(s, h, e);
      case Reload(text, bom, generation) => AddHeard(h, ResetSpec(s.doc, text, bom, generation).mirror);
      case Capture =>
      case SaveDone(_, _) => SaveHeard(s, h, e);
    }
  }

  /** Over every session, the copy the host keeps from the calls alone has the text, line end and version of the
      document. */
  lemma {:induction false} HostKeepsUp(s: Session, es: seq<Event>)
    requires Inv(s) && Runs(s, es)
    ensures UpToDate(HostAfter(s, es), After(s, es).doc.mirror)
  {
    if es == [] {
      AddHeard(None, s.doc.mirror);
    } else {
      var n := |es| - 1;
      RunsPrefix(s, es, n);
      HostKeepsUp(s, es[..n]);
      VersionsIdentifyContent(s, es[..n]);
      AfterPrefix(s, es, n);
      assert es[..n + 1] == es;
      EventHeard(After(s, es[..n]), HostAfter(s, es[..n]), es[n]);
    }
  }

  lemma {:induction false} RunsPrefix(s: Session, es: seq<Event>, n: nat)
    requires Runs(s, es) && n <= |es|
    ensures Runs(s, es[..n])
    decreases |es|
  {
    if n == 0 {
    } else {
      RunsPrefix(Next(s, es[0]), es[1..], n - 1);
      assert es[..n][1..] == es[1..][..n - 1];
    }
  }

  /** A finished save of another version is told only while there is something unsaved. */
  predicate Timely(s: Session, e: Event) {
    e.SaveDone? ==> e.version == s.doc.ExtVersion() || s.doc.mirror.dirty
  }

  /** Does the host show the document as dirty exactly when it is? */
  predicate DirtyAgrees(s: Session, es: seq<Event>, n: nat)
    requires n <= |es|
  {
    var h := HostAfter(s, es[..n]);
    h.Some? && h.value.dirty == After(s, es[..n]).doc.mirror.dirty
  }

  lemma DirtyStep(s: Session, h: Option<Doc>, e: Event)
    requires s.doc.Valid() && h == Some(s.doc.mirror)
    ensures var h' := HeardAll(h, CallsOf(s, e)); h'.Some? && (h' == Some(Next(s, e).doc.mirror) <==> Timely(s, e))
  {
    EventHeard(s, h, e);
    match e {
      case Change(_, _, _) => ChangeHeard(s, h, e);
      case Reload(text, bom, generation) => AddHeard(h, ResetSpec(s.doc, text, bom, generation).mirror);
      case Capture =>
      case SaveDone(_, _) => SaveHeard(s, h, e);
    }
  }

  lemma DirtyNext(s: Session, es: seq<Event>, n: nat)
    requires Inv(s) && Runs(s, es) && n < |es| && DirtyAgrees(s, es, n)
    ensures DirtyAgrees(s, es, n + 1) <==> Timely(After(s, es[..n]), es[n])
  {
    RunsPrefix(s, es, n);
    RunsPrefix(s, es, n + 1);
    HostKeepsUp(s, es[..n]);
    HostKeepsUp(s, es[..n + 1]);
    VersionsIdentifyContent(s, es[..n]);
    AfterPrefix(s, es, n);
    assert es[..n + 1][..n] == es[..n];
    DirtyStep(After(s, es[..n]), HostAfter(s, es[..n]), es[n]);
  }

  predicate AgreesUpTo(s: Session, es: seq<Event>, n: nat)
    requires n <= |es|
  {
    forall m :: 0 <= m <= n ==> DirtyAgrees(s, es, m)
  }

  /** Every save reported in the first `n` events was timely. */
  predicate TimelyUpTo(s: Session, es: seq<Event>, n: nat)
    requires n <= |es|
  {
    forall m :: 0 <= m < n ==> TimelyAt(s, es, m)
  }

  predicate TimelyAt(s: Session, es: seq<Event>, m: nat)
    requires m < |es|
  {
    Timely(After(s, es[..m]), es[m])
  }

  lemma UpToSteps(s: Session, es: seq<Event>, n: nat)
    requires 0 < n <= |es|
    ensures AgreesUpTo(s, es, n) <==> AgreesUpTo(s, es, n - 1) && DirtyAgrees(s, es, n)
    ensures TimelyUpTo(s, es, n) <==> TimelyUpTo(s, es, n - 1) && TimelyAt(s, es, n - 1)
    ensures AgreesUpTo(s, es, n - 1) ==> DirtyAgrees(s, es, n - 1)
  {
  }

  lemma DirtyNextIf(s: Session, es: seq<Event>, n: nat)
    requires Inv(s) && Runs(s, es) && n < |es|
    ensures DirtyAgrees(s, es, n) ==> (DirtyAgrees(s, es, n + 1) <==> TimelyAt(s, es, n))
  {
    if DirtyAgrees(s, es, n) {
      DirtyNext(s, es, n);
    }
  }

  /** The host shows at every moment of a session whether the document is dirty, if and only if no save of another
      version is done while nothing is unsaved. */
  lemma {:induction false} DirtyAgreesExactly(s: Session, es: seq<Event>, n: nat)
    requires Inv(s) && Runs(s, es) && n <= |es|
    ensures AgreesUpTo(s, es, n) <==> TimelyUpTo(s, es, n)
  {
    if n == 0 {
      AddHeard(None, s.doc.mirror);
      assert DirtyAgrees(s, es, 0);
    } else {
      DirtyAgreesExactly(s, es, n - 1);
      UpToSteps(s, es, n);
      DirtyNextIf(s, es, n - 1);
    }
  }

  /** A session that fails it: a save done after the file was reloaded. */
  lemma LateSaveShowsDirty(text: string, bytes: FileBytes)
    requires bytes == OpenSpec(text, false, 1, 0).SaveBytes()
    ensures var s := Session(OpenSpec(text, false, 1, 0), {});
            var es := [Capture, Reload(text, false, 1), SaveDone(1, bytes)];
            && Inv(s) && Runs(s, es)
            && !After(s, es).doc.mirror.dirty && HostAfter(s, es) == Some(After(s, es).doc.mirror.(dirty := true))
  {
    var s := Session(OpenSpec(text, false, 1, 0), {});
    var es := [Capture, Reload(text, false, 1), SaveDone(1, bytes)];
    FreshValid(text, 1);
    LateRun(s, es);
    HostKeepsUp(s, es[..2]);
    SaveHeard(After(s, es[..2]), HostAfter(s, es[..2]), es[2]);
    assert es[..3] == es;
  }

  lemma LateRun(s: Session, es: seq<Event>)
    requires |es| == 3 && es[0].Capture? && es[1].Reload? && es[2].SaveDone?
    requires (es[2].version, es[2].bytes) == (s.doc.ExtVersion(), s.doc.SaveBytes())
    ensures Runs(s, es) && Runs(s, es[..2]) && After(s, es) == Next(After(s, es[..2]), es[2])
    ensures var o := After(s, es[..2]).doc; !o.mirror.dirty && o.ExtVersion() == s.doc.ExtVersion() + 1
  {
    AfterPrefix(s, es, 0);
    AfterPrefix(s, es, 1);
    AfterPrefix(s, es, 2);
    assert es[..3] == es;
    var rest := es[1..];
    assert rest[1..] == [es[2]] && [es[2]][1..] == [];
    assert Runs(Next(Next(s, es[0]), es[1]), [es[2]]);
    assert Runs(Next(s, es[0]), rest);
    RunsPrefix(s, es, 2);
  }
}
