/** One open document: versions, reloads and saves (`ember/editor/src/document.rs`). */
module OpenDocuments {
  import opened Wrappers
  import opened Text
  import opened Mirror
  import Coords

  /** File content: UTF-8 bytes as the scalars they encode, or bytes that are not UTF-8. */
  datatype FileBytes = Utf8(text: string) | NotUtf8(raw: seq<int>)

  const BOM: char := '\U{FEFF}'

  datatype Decoded = Decoded(text: string, bom: bool)

  /** `decode`. */
  function Decode(bytes: FileBytes): Option<Decoded> {
    match bytes
    case NotUtf8(_) => None
    case Utf8(s) => Some(if s != "" && s[0] == BOM then Decoded(s[1..], true) else Decoded(s, false))
  }

  datatype DocError = VersionGap(expected: nat, got: nat) | BadChange(error: EditError)

  /** The calls made to the extension host, reduced to what they say about this document. */
  datatype Call =
    | Activate
    | Add(lines: seq<string>, eol: string, versionId: nat, dirty: bool)
    | Remove
    | ModelChanged(event: ChangedEvent, dirty: bool)
    | ModelSaved
    | DirtyStateChanged(dirty: bool)

  /** The open document as a value. */
  datatype Open = Open(
    mirror: Doc,
    generation: nat,
    widgetVersion: nat,
    extBase: nat,
    bom: bool,
    diskText: string,
    cursor: Option<Coords.Pos>)
  {
    function ExtVersion(): nat {
      extBase + widgetVersion
    }

    function SaveBytes(): FileBytes {
      Utf8((if bom then [BOM] else []) + mirror.Content())
    }

    ghost predicate Valid() {
      mirror.Valid() && StandardEol(mirror.eol) && mirror.version == ExtVersion()
    }
  }

  /** What a file's text looks like in mirror form. */
  function MirrorForm(text: string): string {
    NewDoc(text, 1).Content()
  }

  function OpenSpec(text: string, bom: bool, extVersion: nat, generation: nat): Open {
    Open(NewDoc(text, extVersion), generation, 0, extVersion, bom, MirrorForm(text), None)
  }

  datatype Attempt = Attempt(doc: Open, result: Result<Call, DocError>)

  function ChangeSpec(o: Open, version: nat, span: Coords.Span, text: string): Attempt {
    if version != o.widgetVersion + 1 then Attempt(o, Err(VersionGap(o.widgetVersion + 1, version)))
    else
      var change := EditorChange([TextEdit(span.ToExthost(), text)], Normal, Some(o.extBase + version));
      var out := ApplySpec(o.mirror, change);
      match out.result
      case Err(err) => Attempt(o, Err(BadChange(err)))
      case Ok(ev) =>
        Attempt(o.(mirror := out.doc, widgetVersion := version, cursor := Some(Coords.EndOfInsert(span.start, text))),
                Ok(ModelChanged(ev, out.doc.dirty)))
  }

  function AddCalls(d: Doc): seq<Call> {
    [Activate, Add(d.lines, d.eol, d.version, d.dirty)]
  }

  function ResetSpec(o: Open, text: string, bom: bool, generation: nat): Open {
    var next := o.ExtVersion() + 1;
    Open(NewDoc(text, next), generation, 0, next, bom, MirrorForm(text), None)
  }

  function SavedSpec(o: Open, savedVersion: nat, bytes: FileBytes): Open {
    var disk := match Decode(bytes) case Some(d) => MirrorForm(d.text) case None => o.diskText;
    o.(diskText := disk, mirror := if savedVersion == o.ExtVersion() then o.mirror.(dirty := false) else o.mirror)
  }

  /** `matches_disk`. */
  predicate MatchesDisk(o: Open, text: string) {
    MirrorForm(text) == o.diskText
  }

  // ---- the object itself ---------------------------------------------------------------------

  class OpenDocument {
    var mirror: DocumentMirror
    var generation: nat
    var widgetVersion: nat
    var extBase: nat
    var bom: bool
    var diskText: string
    var cursor: Option<Coords.Pos>

    ghost function View(): Open
      reads this, mirror
    {
      Open(mirror.View(), generation, widgetVersion, extBase, bom, diskText, cursor)
    }

    constructor (text: string, bom: bool, extVersion: nat, generation: nat)
      ensures View() == OpenSpec(text, bom, extVersion, generation) && View().Valid()
      ensures fresh(mirror)
    {
      var m := new DocumentMirror(text, extVersion);
      mirror := m;
      this.generation, widgetVersion, extBase := generation, 0, extVersion;
      this.bom := bom;
      diskText := Join(m.lines, m.eol);
      cursor := None;
    }

    method Announce() returns (calls: seq<Call>)
      ensures calls == AddCalls(View().mirror)
    {
      calls := [Activate, Add(mirror.lines, mirror.eol, mirror.version, mirror.dirty)];
    }

    method ApplyWidgetChange(version: nat, span: Coords.Span, text: string) returns (r: Result<Call, DocError>)
      requires View().Valid()
      modifies this, mirror
      ensures mirror == old(mirror)
      ensures Attempt(View(), r) == ChangeSpec(old(View()), version, span, text)
    {
      var expected := widgetVersion + 1;
      if version != expected {
        return Err(VersionGap(expected, version));
      }
      var change := EditorChange([TextEdit(span.ToExthost(), text)], Normal, Some(extBase + version));
      var ev := mirror.Apply(change);
      if ev.Err? {
        return Err(BadChange(ev.error));
      }
      widgetVersion := version;
      cursor := Some(Coords.EndOfInsert(span.start, text));
      r := Ok(ModelChanged(ev.value, mirror.dirty));
    }

    method Reset(text: string, bom: bool, generation: nat) returns (calls: seq<Call>)
      modifies this
      ensures View() == ResetSpec(old(View()), text, bom, generation) && fresh(mirror)
      ensures calls == [Remove] + AddCalls(View().mirror)
    {
      var next := extBase + widgetVersion + 1;
      mirror := new DocumentMirror(text, next);
      extBase := next;
      widgetVersion := 0;
      this.generation := generation;
      this.bom := bom;
      diskText := Join(mirror.lines, mirror.eol);
      cursor := None;
      calls := Announce();
      calls := [Remove] + calls;
    }

    method Saved(savedVersion: nat, bytes: FileBytes) returns (calls: seq<Call>)
      modifies this, mirror
      ensures mirror == old(mirror)
      ensures View() == SavedSpec(old(View()), savedVersion, bytes)
      ensures calls == if savedVersion == old(View()).ExtVersion() then [ModelSaved]
          else [ModelSaved, DirtyStateChanged(true)]
    {
      var d := Decode(bytes);
      if d.Some? {
        var parsed := new DocumentMirror(d.value.text, 1);
        diskText := Join(parsed.lines, parsed.eol);
      }
      calls := [ModelSaved];
      if savedVersion == extBase + widgetVersion {
        mirror.MarkSaved();
      } else {
        calls := calls + [DirtyStateChanged(true)];
      }
    }
  }

  // ---- whole sessions ------------------------------------------------------------------------

  /** The document, and every pair of version and bytes a save has captured. */
  datatype Session = Session(doc: Open, captured: set<(nat, FileBytes)>)

  datatype Event =
    | Change(version: nat, span: Coords.Span, text: string)
    | Reload(text: string, bom: bool, generation: nat)
    | Capture
    | SaveDone(version: nat, bytes: FileBytes)

  predicate Allowed(s: Session, e: Event) {
    e.SaveDone? ==> (e.version, e.bytes) in s.captured
  }

  function Next(s: Session, e: Event): Session {
    match e
    case Change(version, span, text) => s.(doc := ChangeSpec(s.doc, version, span, text).doc)
    case Reload(text, bom, generation) => s.(doc := ResetSpec(s.doc, text, bom, generation))
    case Capture => s.(captured := s.captured + {(s.doc.ExtVersion(), s.doc.SaveBytes())})
    case SaveDone(version, bytes) => s.(doc := SavedSpec(s.doc, version, bytes))
  }

  predicate Runs(s: Session, es: seq<Event>)
    decreases |es|
  {
    es == [] || (Allowed(s, es[0]) && Runs(Next(s, es[0]), es[1..]))
  }

  function After(s: Session, es: seq<Event>): Session
    decreases |es|
  {
    if es == [] then s else After(Next(s, es[0]), es[1..])
  }

  /** Captures are of the past, and a capture of the current version is a capture of the current content. */
  ghost predicate Inv(s: Session) {
    && s.doc.Valid()
    && (forall c :: c in s.captured ==> c.0 <= s.doc.ExtVersion())
    && (forall c :: c in s.captured && c.0 == s.doc.ExtVersion() ==> c.1 == s.doc.SaveBytes())
  }

  /** A change is taken exactly when its version is the next and its range valid. Refused, it leaves the
      document wholly unchanged; taken, it advances both versions by one. */
  lemma ChangeAllOrNothing(o: Open, version: nat, span: Coords.Span, text: string)
    requires o.Valid()
    ensures var a := ChangeSpec(o, version, span, text);
            && (a.result.Ok? <==> version == o.widgetVersion + 1 && ValidRange(o.mirror.lines, span.ToExthost()))
            && (a.result.Err? ==> a.doc == o)
            && (a.result.Ok? ==>
                  a.doc.Valid() && a.doc.mirror.version == a.doc.ExtVersion() == o.ExtVersion() + 1
                      && a.doc.mirror.dirty)
  {
    var e := TextEdit(span.ToExthost(), text);
    OneEdit(o.mirror, e, o.extBase + version);
  }

  /** A single edit is accepted exactly when its range is valid and its version greater. */
  lemma OneEdit(d: Doc, e: TextEdit, version: nat)
    requires d.Valid()
    ensures var change := EditorChange([e], Normal, Some(version)); var out := ApplySpec(d, change);
            && (out.result.Ok? <==> ValidRange(d.lines, e.range) && version > d.version)
            && (out.result.Err? ==> out.doc == d)
            && (out.result.Ok? ==>
                  && out.doc.Valid() && out.doc.version == version == out.result.value.versionId
                  && out.doc.dirty && out.doc.eol == d.eol == out.result.value.eol
                  && out.result.value.changes == [PreEditChange(d.lines, d.eol, e)])
  {
    var change := EditorChange([e], Normal, Some(version));
    assert [e][..0] == [] && EndToStart([e]) == [e];
    assert AllValid(d.lines, [e]) <==> ValidRange(d.lines, [e][0].range);
    MultiCursorEdit(d, change);
    if ValidRange(d.lines, e.range) {
      OneReported(d.lines, d.eol, e);
    }
  }

  lemma OneReported(ls: seq<string>, eol: string, e: TextEdit)
    requires AllValid(ls, [e]) && ValidRange(ls, e.range)
    ensures PreEditChanges(ls, eol, [e]) == [PreEditChange(ls, eol, e)]
  {
    var es := [e];
    assert es[..|es| - 1] == [] && PreEditChanges(ls, eol, []) == [];
  }

  lemma FreshValid(text: string, version: nat)
    ensures NewDoc(text, version).Valid() && StandardEol(NewDoc(text, version).eol)
  {
    LinesUnbroken(text);
  }

  /** One step: the version never goes back, and content that differs has a greater version. */
  lemma StepKeeps(s: Session, e: Event)
    requires Inv(s) && Allowed(s, e)
    ensures var t := Next(s, e);
            && Inv(t)
            && s.doc.ExtVersion() <= t.doc.ExtVersion()
            && (s.doc.ExtVersion() == t.doc.ExtVersion() ==> s.doc.SaveBytes() == t.doc.SaveBytes())
  {
    match e {
      case Change(version, span, text) => ChangeAllOrNothing(s.doc, version, span, text);
      case Reload(text, _, _) => FreshValid(text, s.doc.ExtVersion() + 1);
      case Capture =>
      case SaveDone(_, _) =>
    }
  }

  /** Versions identify content: over any run the mirror's version is `ext_base + widget_version`, never goes back,
      and is the same only if the content is. */
  lemma {:induction false} VersionsIdentifyContent(s: Session, es: seq<Event>)
    requires Inv(s) && Runs(s, es)
    ensures var t := After(s, es);
            && Inv(t)
            && t.doc.mirror.version == t.doc.extBase + t.doc.widgetVersion
            && s.doc.ExtVersion() <= t.doc.ExtVersion()
            && (s.doc.ExtVersion() == t.doc.ExtVersion() ==> s.doc.SaveBytes() == t.doc.SaveBytes())
    decreases |es|
  {
    if es == [] {
    } else {
      StepKeeps(s, es[0]);
      VersionsIdentifyContent(Next(s, es[0]), es[1..]);
    }
  }

  /** Saves are honest: after any run, a finished save makes the document clean only if the bytes written are what
      would be written now. */
  lemma HonestSave(text: string, bom: bool, version: nat, generation: nat, es: seq<Event>, saved: (nat, FileBytes))
    requires var s := Session(OpenSpec(text, bom, version, generation), {});
        Runs(s, es) && saved in After(s, es).captured
    ensures var s := Session(OpenSpec(text, bom, version, generation), {});
            var o := After(s, es).doc;
            var o' := SavedSpec(o, saved.0, saved.1);
            && (o.mirror.dirty && !o'.mirror.dirty ==> saved.1 == o.SaveBytes())
            && (!o'.mirror.dirty <==> !o.mirror.dirty || saved.0 == o.ExtVersion())
  {
    var s := Session(OpenSpec(text, bom, version, generation), {});
    FreshValid(text, version);
    VersionsIdentifyContent(s, es);
  }

  // ---- what is on disk -----------------------------------------------------------------------

  lemma {:induction false} DetectEolOfLine(line: string, rest: string)
    requires Unbroken(line)
    ensures rest != "" && rest[0] == '\n' ==> DetectEol(line + rest) == "\n"
    ensures |rest| > 1 && rest[0] == '\r' && rest[1] == '\n' ==> DetectEol(line + rest) == "\r\n"
  {
    if line == "" {
      assert line + rest == rest;
    } else {
      assert (line + rest)[1..] == line[1..] + rest;
      DetectEolOfLine(line[1..], rest);
    }
  }

  lemma EolOfJoin(ls: seq<string>, eol: string)
    requires |ls| > 1 && Unbroken(ls[0]) && StandardEol(eol)
    ensures DetectEol(Join(ls, eol)) == eol
  {
    var rest := eol + Join(ls[1..], eol);
    assert Join(ls, eol) == ls[0] + rest;
    DetectEolOfLine(ls[0], rest);
  }

  /** A document written out and read back has the same text. */
  lemma MirrorFormOfContent(ls: seq<string>, eol: string)
    requires ls != [] && AllUnbroken(ls) && StandardEol(eol)
    ensures MirrorForm(Join(ls, eol)) == Join(ls, eol)
  {
    LinesOfJoin(ls, eol);
    if |ls| > 1 {
      assert Unbroken(ls[0]);
      EolOfJoin(ls, eol);
    }
  }

  /** Dropping a leading U+FEFF from the text drops it from the first line. */
  lemma DropFirst(ls: seq<string>, eol: string)
    requires ls != [] && AllUnbroken(ls) && StandardEol(eol)
    requires Join(ls, eol) != "" && Join(ls, eol)[0] == BOM
    ensures MirrorForm(Join(ls, eol)[1..]) == Join(ls, eol)[1..]
  {
    FirstScalar(ls, eol);
    var trimmed := ls[0 := ls[0][1..]];
    assert trimmed[1..] == ls[1..];
    assert Join(ls, eol)[1..] == Join(trimmed, eol);
    MirrorFormOfContent(trimmed, eol);
  }

  lemma FirstScalar(ls: seq<string>, eol: string)
    requires ls != [] && eol != "" && Join(ls, eol) != ""
    ensures Join(ls, eol)[0] == if ls[0] != "" then ls[0][0] else eol[0]
  {
  }

  /** After saving the current content the recorded disk text is the buffer's, unless the file has no byte-order
      mark and the buffer itself begins with U+FEFF. */
  lemma SavedTextIsDiskText(o: Open)
    requires o.Valid()
    ensures SavedSpec(o, o.ExtVersion(), o.SaveBytes()).diskText == o.mirror.Content()
       <==> o.bom || o.mirror.Content() == "" || o.mirror.Content()[0] != BOM
  {
    var content := o.mirror.Content();
    MirrorFormOfContent(o.mirror.lines, o.mirror.eol);
    if o.bom {
      assert ([BOM] + content)[1..] == content;
    } else {
      assert [] + content == content;
      if content != "" && content[0] == BOM {
        DropFirst(o.mirror.lines, o.mirror.eol);
        assert Decode(o.SaveBytes()) == Some(Decoded(content[1..], true));
      } else {
        assert Decode(o.SaveBytes()) == Some(Decoded(content, false));
      }
    }
  }

  /** A document in which the two differ: U+FEFF typed into an empty file that has no byte-order mark. */
  lemma TypedMarkIsLost()
    ensures var o := OpenSpec("", false, 1, 0);
            var a := ChangeSpec(o, 1, Coords.Span(Coords.Pos(0, 0), Coords.Pos(0, 0)), [BOM]);
            && a.result.Ok? && a.doc.Valid() && a.doc.mirror.Content() == [BOM]
            && SavedSpec(a.doc, a.doc.ExtVersion(), a.doc.SaveBytes()).diskText != [BOM]
  {
    var o, span := OpenSpec("", false, 1, 0), Coords.Span(Coords.Pos(0, 0), Coords.Pos(0, 0));
    FreshValid("", 1);
    assert o.mirror.lines == [""] && o.mirror.Content() == "";
    assert ValidRange(o.mirror.lines, span.ToExthost());
    ChangeAllOrNothing(o, 1, span, [BOM]);
    TypedAlone(o.mirror, TextEdit(span.ToExthost(), [BOM]), 2);
    SavedTextIsDiskText(ChangeSpec(o, 1, span, [BOM]).doc);
  }

  /** A single accepted edit replaces its range in the flat text. */
  lemma OneReplaced(d: Doc, e: TextEdit, version: nat)
    requires d.Valid() && ValidRange(d.lines, e.range) && version > d.version
    ensures var content, r := d.Content(), Flat(d.lines, d.eol, e);
            && r.from <= r.to <= |content|
            && ApplySpec(d, EditorChange([e], Normal, Some(version))).doc.Content()
                 == content[..r.from] + r.text + content[r.to..]
  {
    var change := EditorChange([e], Normal, Some(version));
    assert [e][..0] == [] && EndToStart([e]) == [e];
    MultiCursorEdit(d, change);
    OneFlat(d, e);
    OneAtOnce(d.Content(), Flat(d.lines, d.eol, e));
  }

  lemma OneAtOnce(t: string, r: Replacement)
    requires Ascending([r], 0, |t|)
    ensures r.from <= r.to <= |t| && AllAtOnce(t, [r], 0) == t[..r.from] + r.text + t[r.to..]
  {
    AscendingBound([r], 0, |t|);
    assert [r][1..] == [];
  }

  /** U+FEFF typed into an empty document is the whole of it. */
  lemma TypedAlone(d: Doc, e: TextEdit, version: nat)
    requires d.Valid() && d.Content() == "" && ValidRange(d.lines, e.range) && e.text == [BOM] && version > d.version
    ensures ApplySpec(d, EditorChange([e], Normal, Some(version))).doc.Content() == [BOM]
  {
    OneReplaced(d, e, version);
    MarkAlone();
  }

  lemma MarkAlone()
    ensures Lines([BOM]) == [[BOM]]
  {
    var text := [BOM];
    assert text[1..] == "" && Lines(text[1..]) == [""];
    assert Lines(text) == Glue([[text[0]]], [""]);
    assert [BOM] + "" == [BOM];
    assert Glue([[BOM]], [""]) == [[BOM]];
  }

  lemma OneFlat(d: Doc, e: TextEdit)
    requires AllValid(d.lines, [e]) && ValidRange(d.lines, e.range)
    ensures Flats(d.lines, d.eol, [e]) == [Flat(d.lines, d.eol, e)]
  {
    var es := [e];
    assert es[..|es| - 1] == [] && Flats(d.lines, d.eol, []) == [];
    assert Flats(d.lines, d.eol, es) == [Flat(d.lines, d.eol, es[0])] + Flats(d.lines, d.eol, es[..|es| - 1]);
  }

  // ---- opening and saving --------------------------------------------------------------------

  /** Opening a file and saving it unchanged writes the same bytes exactly when all its line breaks are the
      one detected. */
  lemma OpenedAndSaved(text: string, bom: bool, version: nat, generation: nat)
    ensures OpenSpec(text, bom, version, generation).SaveBytes() == Utf8((if bom then [BOM] else []) + text)
       <==> OnlyBreaks(text, DetectEol(text))
  {
    JoinOfLines(text, DetectEol(text));
    var content, mark := OpenSpec(text, bom, version, generation).mirror.Content(), if bom then [BOM] else [];
    assert (mark + content)[|mark|..] == content && (mark + text)[|mark|..] == text;
  }

  /** What was just saved is what is on disk: the watcher event of the own save is ignored. */
  lemma OwnSaveMatchesDisk(o: Open, savedVersion: nat)
    ensures var text := Decode(o.SaveBytes()).value.text;
            MatchesDisk(SavedSpec(o, savedVersion, o.SaveBytes()), text)
  {
  }
}
