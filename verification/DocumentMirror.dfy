/** The text mirror and its edits (`ember/editor-conn/src/document.rs`). */
module Mirror {
  import opened Wrappers
  import opened Text

  /** 1-based lines and 1-based UTF-16 columns, end exclusive. */
  datatype Range = Range(startLine: nat, startColumn: nat, endLine: nat, endColumn: nat)

  datatype TextEdit = TextEdit(range: Range, text: string)

  datatype EditReason = Normal | Undo | Redo

  datatype EditorChange = EditorChange(edits: seq<TextEdit>, reason: EditReason, version: Option<nat>)

  datatype ContentChange = ContentChange(range: Range, rangeOffset: int, rangeLength: int, text: string)

  datatype ChangedEvent = ChangedEvent(
    changes: seq<ContentChange>,
    eol: string,
    versionId: nat,
    isUndoing: bool,
    isRedoing: bool,
    isFlush: bool,
    isEolChange: bool)

  datatype EditError = LineOutOfRange | ColumnOutOfRange | EndBeforeStart | Overlapping | VersionNotIncreasing

  /** The mirrored document as a value. */
  datatype Doc = Doc(lines: seq<string>, eol: string, version: nat, dirty: bool) {
    function Content(): string {
      Join(lines, eol)
    }

    ghost predicate Valid() {
      lines != [] && AllUnbroken(lines)
    }
  }

  /** `detect_eol`: CRLF when the first `\n` follows a `\r`. */
  function DetectEol(text: string): (eol: string)
    ensures StandardEol(eol)
  {
    if text == "" || text[0] == '\n' then "\n"
    else if |text| > 1 && text[1] == '\n' then (if text[0] == '\r' then "\r\n" else "\n")
    else DetectEol(text[1..])
  }

  function NewDoc(text: string, version: nat): Doc {
    Doc(Lines(text), DetectEol(text), version, false)
  }

  // ---- positions -----------------------------------------------------------------------------

  /** `byte_index`, as an index into the line's scalars. */
  function Locate(ls: seq<string>, line: nat, column: nat): Result<Loc, EditError> {
    if line == 0 || line > |ls| then Err(LineOutOfRange)
    else if column == 0 then Err(ColumnOutOfRange)
    else match IndexOf(ls[line - 1], column - 1)
      case Some(k) => Ok(Loc(line - 1, k))
      case None => Err(ColumnOutOfRange)
  }

  lemma LocateExact(ls: seq<string>, line: nat, column: nat, p: Loc)
    ensures Locate(ls, line, column) == Ok(p)
       <==> Within(ls, p) && line == p.line + 1 && column == Units(ls[p.line][..p.index]) + 1
  {
    if 0 < line <= |ls| && column > 0 {
      IndexOfExact(ls[line - 1], column - 1, p.index);
    }
  }

  /** The units of whole lines with their line ends. */
  function UnitsOfLines(ls: seq<string>, eol: string): nat {
    if ls == [] then 0 else Units(ls[0]) + Units(eol) + UnitsOfLines(ls[1..], eol)
  }

  /** `offset_at`. */
  function OffsetAt(ls: seq<string>, eol: string, line: nat, column: nat): Result<nat, EditError> {
    match Locate(ls, line, column)
    case Err(e) => Err(e)
    case Ok(_) => Ok(UnitsOfLines(ls[..line - 1], eol) + column - 1)
  }

  lemma {:induction false} UnitsOfTerminated(ls: seq<string>, eol: string)
    ensures Units(Terminated(ls, eol)) == UnitsOfLines(ls, eol)
  {
    if ls == [] {
    } else {
      UnitsAppend(ls[0] + eol, Terminated(ls[1..], eol));
      UnitsAppend(ls[0], eol);
      UnitsOfTerminated(ls[1..], eol);
    }
  }

  /** An offset is the number of UTF-16 units of the text before the place. */
  lemma OffsetIsUnits(ls: seq<string>, eol: string, line: nat, column: nat, p: Loc)
    requires Locate(ls, line, column) == Ok(p)
    ensures Within(ls, p)
    ensures OffsetAt(ls, eol, line, column) == Ok(Units(Join(Head(ls, p), eol)))
    ensures OffsetAt(ls, eol, line, column) == Ok(Units(Join(ls, eol)[..FlatIndex(ls, eol, p)]))
  {
    LocateExact(ls, line, column, p);
    HeadText(ls, eol, p);
    UnitsOfTerminated(ls[..p.line], eol);
    UnitsAppend(Terminated(ls[..p.line], eol), ls[p.line][..p.index]);
    JoinCut(ls, eol, p);
  }

  predicate PosAtMost(l1: nat, c1: nat, l2: nat, c2: nat) {
    l1 < l2 || (l1 == l2 && c1 <= c2)
  }

  /** Positions are ordered as the places they name. */
  lemma LocateMonotone(ls: seq<string>, l1: nat, c1: nat, l2: nat, c2: nat, p: Loc, q: Loc)
    requires Locate(ls, l1, c1) == Ok(p) && Locate(ls, l2, c2) == Ok(q)
    ensures PosAtMost(l1, c1, l2, c2) <==> AtMost(p, q)
  {
    LocateExact(ls, l1, c1, p);
    LocateExact(ls, l2, c2, q);
    if p.line == q.line {
      var lo, hi := if p.index <= q.index then p.index else q.index, if p.index <= q.index then q.index else p.index;
      var line := ls[p.line];
      UnitsSplit(line[..hi], lo);
      assert line[..hi][..lo] == line[..lo];
      assert lo < hi ==> Units(line[..hi][lo..]) > 0;
    }
  }

  /** A position names the same place in two documents that agree up to somewhere at or after it. */
  lemma LocateShared(a: seq<string>, b: seq<string>, line: nat, column: nat, p: Loc, q: Loc)
    requires Locate(b, line, column) == Ok(p) && AtMost(p, q) && AgreeUpTo(a, b, q)
    ensures Locate(a, line, column) == Ok(p)
    ensures AgreeUpTo(a, b, p)
  {
    LocateExact(b, line, column, p);
    AgreeEarlier(a, b, p, q);
    assert a[p.line][..p.index] == Head(a, p)[p.line] == Head(b, p)[p.line] == b[p.line][..p.index];
    LocateExact(a, line, column, p);
  }

  function CheckRange(ls: seq<string>, r: Range): Option<EditError> {
    if !PosAtMost(r.startLine, r.startColumn, r.endLine, r.endColumn) then Some(EndBeforeStart)
    else match Locate(ls, r.startLine, r.startColumn)
      case Err(e) => Some(e)
      case Ok(_) =>
        match Locate(ls, r.endLine, r.endColumn)
        case Err(e) => Some(e)
        case Ok(_) => None
  }

  predicate ValidRange(ls: seq<string>, r: Range) {
    CheckRange(ls, r).None?
  }

  function From(ls: seq<string>, r: Range): (p: Loc)
    requires ValidRange(ls, r)
    ensures Within(ls, p) && Locate(ls, r.startLine, r.startColumn) == Ok(p)
  {
    var p := Locate(ls, r.startLine, r.startColumn).value;
    LocateExact(ls, r.startLine, r.startColumn, p);
    p
  }

  function To(ls: seq<string>, r: Range): (q: Loc)
    requires ValidRange(ls, r)
    ensures Within(ls, q) && Locate(ls, r.endLine, r.endColumn) == Ok(q) && AtMost(From(ls, r), q)
  {
    var q := Locate(ls, r.endLine, r.endColumn).value;
    LocateExact(ls, r.endLine, r.endColumn, q);
    LocateMonotone(ls, r.startLine, r.startColumn, r.endLine, r.endColumn, From(ls, r), q);
    q
  }

  // ---- one replacement -----------------------------------------------------------------------

  datatype Edited = Edited(lines: seq<string>, changes: seq<ContentChange>)

  /** `apply_one`. It does not check that the range is ordered; `apply` has. */
  function ApplyOneSpec(ls: seq<string>, eol: string, e: TextEdit): Result<Edited, EditError> {
    var r := e.range;
    match (OffsetAt(ls, eol, r.startLine, r.startColumn), OffsetAt(ls, eol, r.endLine, r.endColumn))
    case (Ok(from), Ok(to)) =>
      var p, q := Locate(ls, r.startLine, r.startColumn).value, Locate(ls, r.endLine, r.endColumn).value;
      LocateExact(ls, r.startLine, r.startColumn, p);
      LocateExact(ls, r.endLine, r.endColumn, q);
      Ok(Edited(Splice(ls, p, q, e.text), [ContentChange(r, from, to as int - from as int, Join(Lines(e.text), eol))]))
    case (Ok(_), Err(err)) => Err(err)
    case (Err(err), _) => Err(err)
  }

  /** The edits one after another, each against what the ones before it left. */
  function ApplyEach(ls: seq<string>, eol: string, es: seq<TextEdit>): Result<Edited, EditError> {
    if es == [] then Ok(Edited(ls, []))
    else match ApplyEach(ls, eol, es[..|es| - 1])
      case Err(err) => Err(err)
      case Ok(done) =>
        match ApplyOneSpec(done.lines, eol, es[|es| - 1])
        case Err(err) => Err(err)
        case Ok(one) => Ok(Edited(one.lines, done.changes + one.changes))
  }

  // ---- a whole operation ---------------------------------------------------------------------

  predicate StartsAtMost(a: TextEdit, b: TextEdit) {
    PosAtMost(a.range.startLine, a.range.startColumn, b.range.startLine, b.range.startColumn)
  }

  /** The library's stable sort, end of the document first: `e` goes after everything that starts no earlier. */
  function Insert(sorted: seq<TextEdit>, e: TextEdit): seq<TextEdit> {
    if sorted == [] || !StartsAtMost(e, sorted[0]) then [e] + sorted else [sorted[0]] + Insert(sorted[1..], e)
  }

  function EndToStart(edits: seq<TextEdit>): seq<TextEdit> {
    if edits == [] then [] else Insert(EndToStart(edits[..|edits| - 1]), edits[|edits| - 1])
  }

  predicate Descending(es: seq<TextEdit>) {
    forall i :: 0 <= i < |es| - 1 ==> StartsAtMost(es[i + 1], es[i])
  }

  lemma {:induction false} InsertSorts(sorted: seq<TextEdit>, e: TextEdit)
    requires Descending(sorted)
    ensures Descending(Insert(sorted, e))
    ensures multiset(Insert(sorted, e)) == multiset(sorted) + multiset{e}
    ensures Insert(sorted, e)[0] == e || (sorted != [] && Insert(sorted, e)[0] == sorted[0])
  {
    if sorted == [] || !StartsAtMost(e, sorted[0]) {
    } else {
      InsertSorts(sorted[1..], e);
      assert sorted == [sorted[0]] + sorted[1..];
    }
  }

  /** The sort keeps exactly the given edits and orders them. */
  lemma {:induction false} EndToStartSorts(edits: seq<TextEdit>)
    ensures Descending(EndToStart(edits))
    ensures multiset(EndToStart(edits)) == multiset(edits)
  {
    if edits == [] {
    } else {
      EndToStartSorts(edits[..|edits| - 1]);
      InsertSorts(EndToStart(edits[..|edits| - 1]), edits[|edits| - 1]);
      assert edits == edits[..|edits| - 1] + [edits[|edits| - 1]];
    }
  }

  function SameStart(es: seq<TextEdit>, e: TextEdit): seq<TextEdit> {
    if es == [] then []
    else (if StartsAtMost(e, es[0]) && StartsAtMost(es[0], e) then [es[0]] else []) + SameStart(es[1..], e)
  }

  lemma {:induction false} SameStartAppend(a: seq<TextEdit>, b: seq<TextEdit>, e: TextEdit)
    ensures SameStart(a + b, e) == SameStart(a, e) + SameStart(b, e)
  {
    if a == [] {
      assert a + b == b;
    } else {
      assert (a + b)[1..] == a[1..] + b;
      SameStartAppend(a[1..], b, e);
    }
  }

  lemma {:induction false} InsertStable(sorted: seq<TextEdit>, e: TextEdit, probe: TextEdit)
    requires Descending(sorted)
    ensures SameStart(Insert(sorted, e), probe) == SameStart(sorted + [e], probe)
  {
    SameStartAppend(sorted, [e], probe);
    assert [e][1..] == [];
    if sorted == [] {
    } else if !StartsAtMost(e, sorted[0]) {
      if StartsAtMost(probe, e) && StartsAtMost(e, probe) {
        NoneSame(sorted, probe);
      }
      assert ([e] + sorted)[1..] == sorted;
    } else {
      InsertStable(sorted[1..], e, probe);
      SameStartAppend(sorted[1..], [e], probe);
      assert Insert(sorted, e)[1..] == Insert(sorted[1..], e);
    }
  }

  lemma {:induction false} NoneSame(sorted: seq<TextEdit>, e: TextEdit)
    requires Descending(sorted) && (sorted != [] ==> !StartsAtMost(e, sorted[0]))
    ensures SameStart(sorted, e) == []
  {
    if sorted == [] {
    } else {
      assert |sorted| > 1 ==> StartsAtMost(sorted[1], sorted[0]);
      NoneSame(sorted[1..], e);
    }
  }

  /** The sort is stable: edits that start at the same place keep the order they were given in. */
  lemma {:induction false} EndToStartStable(edits: seq<TextEdit>, probe: TextEdit)
    ensures SameStart(EndToStart(edits), probe) == SameStart(edits, probe)
  {
    if edits == [] {
    } else {
      var before, e := edits[..|edits| - 1], edits[|edits| - 1];
      EndToStartStable(before, probe);
      EndToStartSorts(before);
      InsertStable(EndToStart(before), e, probe);
      SameStartAppend(EndToStart(before), [e], probe);
      SameStartAppend(before, [e], probe);
      assert edits == before + [e];
    }
  }

  predicate EndsBefore(earlier: TextEdit, later: TextEdit) {
    PosAtMost(earlier.range.endLine, earlier.range.endColumn, later.range.startLine, later.range.startColumn)
  }

  /** No edit runs into the one after it; `es` is end to start. */
  predicate Spaced(es: seq<TextEdit>) {
    forall i :: 0 <= i < |es| - 1 ==> EndsBefore(es[i + 1], es[i])
  }

  function FirstBadRange(ls: seq<string>, edits: seq<TextEdit>): Option<EditError> {
    if edits == [] then None
    else match CheckRange(ls, edits[0].range)
      case Some(err) => Some(err)
      case None => FirstBadRange(ls, edits[1..])
  }

  function NewVersion(version: nat, asked: Option<nat>): Option<nat> {
    match asked
    case Some(v) => if v <= version then None else Some(v)
    case None => Some(version + 1)
  }

  datatype Outcome = Outcome(doc: Doc, result: Result<ChangedEvent, EditError>)

  /** `apply`. */
  function ApplySpec(d: Doc, change: EditorChange): Outcome {
    var bad := FirstBadRange(d.lines, change.edits);
    var es := EndToStart(change.edits);
    if bad.Some? then Outcome(d, Err(bad.value))
    else if !Spaced(es) then Outcome(d, Err(Overlapping))
    else match NewVersion(d.version, change.version)
      case None => Outcome(d, Err(VersionNotIncreasing))
      case Some(v) =>
        match ApplyEach(d.lines, d.eol, es)
        case Err(err) => Outcome(d, Err(err))
        case Ok(done) =>
          Outcome(Doc(done.lines, d.eol, v, true),
                  Ok(ChangedEvent(done.changes, d.eol, v, change.reason.Undo?, change.reason.Redo?, false, false)))
  }

  /** `replace_all`: one replacement of the full range, which keeps the dirty mark. */
  function ReplaceAllSpec(d: Doc, text: string): Outcome
    requires d.lines != []
  {
    match ApplyOneSpec(d.lines, d.eol, TextEdit(FullRange(d.lines), text))
    case Err(err) => Outcome(d, Err(err))
    case Ok(one) =>
      Outcome(d.(lines := one.lines, version := d.version + 1),
              Ok(ChangedEvent(one.changes, d.eol, d.version + 1, false, false, true, false)))
  }

  function FullRange(ls: seq<string>): Range
    requires ls != []
  {
    Range(1, 1, |ls|, Units(ls[|ls| - 1]) + 1)
  }

  // ---- the object itself ---------------------------------------------------------------------

  class DocumentMirror {
    var lines: seq<string>
    var eol: string
    var version: nat
    var dirty: bool

    ghost function View(): Doc
      reads this
    {
      Doc(lines, eol, version, dirty)
    }

    constructor (text: string, startVersion: nat)
      ensures View() == NewDoc(text, startVersion) && View().Valid()
    {
      LinesUnbroken(text);
      lines := Lines(text);
      eol := DetectEol(text);
      version := startVersion;
      dirty := false;
    }

    /** Walk the line, counting units, until the column is reached or passed. */
    method ByteIndex(line: nat, column: nat) returns (r: Result<nat, EditError>)
      ensures r == match Locate(lines, line, column) case Ok(p) => Ok(p.index) case Err(e) => Err(e)
    {
      if line == 0 || line > |lines| {
        return Err(LineOutOfRange);
      }
      if column == 0 {
        return Err(ColumnOutOfRange);
      }
      var l := lines[line - 1];
      var target := column - 1;
      var units := 0;
      var i := 0;
      while i < |l|
        invariant i <= |l| && units <= target
        invariant IndexOf(l, target) == match IndexOf(l[i..], target - units) case Some(k) => Some(k + i)
            case None => None
      {
        if units == target {
          return Ok(i);
        }
        units := units + Width(l[i]);
        if units > target {
          return Err(ColumnOutOfRange);
        }
        i := i + 1;
      }
      r := if units == target then Ok(|l|) else Err(ColumnOutOfRange);
    }

    method RangeIsValid(r: Range) returns (bad: Option<EditError>)
      ensures bad == CheckRange(lines, r)
    {
      if !PosAtMost(r.startLine, r.startColumn, r.endLine, r.endColumn) {
        return Some(EndBeforeStart);
      }
      var s := ByteIndex(r.startLine, r.startColumn);
      if s.Err? {
        return Some(s.error);
      }
      var e := ByteIndex(r.endLine, r.endColumn);
      bad := if e.Err? then Some(e.error) else None;
    }

    method ApplyOne(e: TextEdit) returns (r: Result<ContentChange, EditError>)
      modifies `lines
      ensures match ApplyOneSpec(old(lines), eol, e)
              case Ok(one) => r.Ok? && one.changes == [r.value] && lines == one.lines
              case Err(err) => r == Err(err) && lines == old(lines)
    {
      var range := e.range;
      var from := OffsetAt(lines, eol, range.startLine, range.startColumn);
      if from.Err? {
        return Err(from.error);
      }
      var to := OffsetAt(lines, eol, range.endLine, range.endColumn);
      if to.Err? {
        return Err(to.error);
      }
      var sb := ByteIndex(range.startLine, range.startColumn);
      var eb := ByteIndex(range.endLine, range.endColumn);
      var si, ei := range.startLine - 1, range.endLine - 1;
      LocateExact(lines, range.startLine, range.startColumn, Loc(si, sb.value));
      LocateExact(lines, range.endLine, range.endColumn, Loc(ei, eb.value));

      var prefix := lines[si][..sb.value];
      var suffix := lines[ei][eb.value..];
      var newLines := SplitLines(e.text);
      var normalized := Join(newLines, eol);
      newLines := newLines[0 := prefix + newLines[0]];
      newLines := newLines[|newLines| - 1 := newLines[|newLines| - 1] + suffix];
      SpliceIsGlue(lines, Loc(si, sb.value), Loc(ei, eb.value), e.text, newLines);
      lines := lines[..si] + newLines + lines[ei + 1..];
      r := Ok(ContentChange(range, from.value, to.value as int - from.value as int, normalized));
    }

    method CheckRanges(edits: seq<TextEdit>) returns (bad: Option<EditError>)
      ensures bad == FirstBadRange(lines, edits)
    {
      for i := 0 to |edits|
        invariant FirstBadRange(lines, edits) == FirstBadRange(lines, edits[i..])
      {
        assert edits[i..][0] == edits[i];
        bad := RangeIsValid(edits[i].range);
        if bad.Some? {
          return;
        }
        assert edits[i..][1..] == edits[i + 1..];
      }
      bad := None;
    }

    method CheckSpacing(edits: seq<TextEdit>) returns (ok: bool)
      ensures ok == Spaced(edits)
    {
      var i := 0;
      while i + 1 < |edits|
        invariant forall j :: 0 <= j < i && j + 1 < |edits| ==> EndsBefore(edits[j + 1], edits[j])
      {
        if !EndsBefore(edits[i + 1], edits[i]) {
          return false;
        }
        i := i + 1;
      }
      ok := true;
    }

    method ApplyInOrder(edits: seq<TextEdit>) returns (changes: seq<ContentChange>)
      requires ApplyEach(lines, eol, edits).Ok?
      modifies `lines
      ensures ApplyEach(old(lines), eol, edits) == Ok(Edited(lines, changes))
    {
      changes := [];
      ghost var ls := lines;
      for i := 0 to |edits|
        invariant ApplyEach(ls, eol, edits[..i]) == Ok(Edited(lines, changes))
      {
        assert edits[..i + 1][..i] == edits[..i];
        EditsApplyPrefix(ls, eol, edits, i + 1);
        var one := ApplyOne(edits[i]);
        changes := changes + [one.value];
      }
      assert edits[..|edits|] == edits;
    }

    method Apply(change: EditorChange) returns (r: Result<ChangedEvent, EditError>)
      requires lines != []
      modifies this
      ensures Outcome(View(), r) == ApplySpec(old(View()), change)
    {
      var bad := CheckRanges(change.edits);
      if bad.Some? {
        return Err(bad.value);
      }
      var edits := EndToStart(change.edits);
      var spaced := CheckSpacing(edits);
      if !spaced {
        return Err(Overlapping);
      }
      if change.version.Some? && change.version.value <= version {
        return Err(VersionNotIncreasing);
      }
      var newVersion := if change.version.Some? then change.version.value else version + 1;
      EditsApply(lines, eol, change.edits);
      var changes := ApplyInOrder(edits);
      version := newVersion;
      dirty := true;
      r := Ok(ChangedEvent(changes, eol, version, change.reason.Undo?, change.reason.Redo?, false, false));
    }

    method ReplaceAll(text: string) returns (r: Result<ChangedEvent, EditError>)
      requires lines != []
      modifies this
      ensures Outcome(View(), r) == ReplaceAllSpec(old(View()), text)
    {
      var full := FullRange(lines);
      var one := ApplyOne(TextEdit(full, text));
      if one.Err? {
        return Err(one.error);
      }
      version := version + 1;
      r := Ok(ChangedEvent([one.value], eol, version, false, false, true, false));
    }

    method SetEol(newEol: string) returns (ev: ChangedEvent)
      modifies this
      ensures View() == old(View()).(eol := newEol, version := old(version) + 1)
      ensures ev == ChangedEvent([], newEol, version, false, false, false, true)
    {
      eol := newEol;
      version := version + 1;
      ev := ChangedEvent([], eol, version, false, false, false, true);
    }

    method MarkSaved()
      modifies this
      ensures View() == old(View()).(dirty := false)
    {
      dirty := false;
    }
  }

  lemma HeadGlued(ls: seq<string>, p: Loc, text: string)
    requires Within(ls, p)
    ensures Glue(Head(ls, p), Lines(text)) == ls[..p.line] + Lines(text)[0 := ls[p.line][..p.index] + Lines(text)[0]]
  {
  }

  lemma TailGlued(front: seq<string>, pieces: seq<string>, tail: seq<string>)
    requires pieces != [] && tail != []
    ensures Glue(front + pieces, tail) == front + pieces[|pieces| - 1 := pieces[|pieces| - 1] + tail[0]] + tail[1..]
  {
  }

  lemma SpliceIsGlue(ls: seq<string>, p: Loc, q: Loc, text: string, pieces: seq<string>)
    requires Within(ls, p) && Within(ls, q)
    requires var prefixed := Lines(text)[0 := ls[p.line][..p.index] + Lines(text)[0]];
             var n := |prefixed| - 1;
             pieces == prefixed[n := prefixed[n] + ls[q.line][q.index..]]
    ensures ls[..p.line] + pieces + ls[q.line + 1..] == Splice(ls, p, q, text)
  {
    HeadGlued(ls, p, text);
    TailGlued(ls[..p.line], Lines(text)[0 := ls[p.line][..p.index] + Lines(text)[0]], Tail(ls, q));
  }

  // ---- simultaneous replacement --------------------------------------------------------------

  /** Replace the scalars `from..to` of a text. */
  datatype Replacement = Replacement(from: nat, to: nat, text: string)

  /** Disjoint replacements of `at..n`, in order. */
  predicate Ascending(reps: seq<Replacement>, at: nat, n: nat) {
    if reps == [] then at <= n
    else at <= reps[0].from <= reps[0].to && Ascending(reps[1..], reps[0].to, n)
  }

  lemma {:induction false} AscendingBound(reps: seq<Replacement>, at: nat, n: nat)
    requires Ascending(reps, at, n)
    ensures at <= n && (reps != [] ==> reps[0].to <= n)
  {
    if reps == [] {
    } else {
      AscendingBound(reps[1..], reps[0].to, n);
    }
  }

  /** The text from `at` on with all replacements made at once: every index is one of the original text. */
  function AllAtOnce(t: string, reps: seq<Replacement>, at: nat): string
    requires Ascending(reps, at, |t|)
  {
    AscendingBound(reps, at, |t|);
    if reps == [] then t[at..]
    else t[at..reps[0].from] + reps[0].text + AllAtOnce(t, reps[1..], reps[0].to)
  }

  lemma AllAtOnceCut(t: string, reps: seq<Replacement>, at: nat, later: nat)
    requires at <= later && Ascending(reps, later, |t|)
    ensures Ascending(reps, at, |t|)
    ensures later <= |t|
    ensures AllAtOnce(t, reps, at) == t[at..later] + AllAtOnce(t, reps, later)
  {
    AscendingBound(reps, later, |t|);
    if reps == [] {
      assert t[at..] == t[at..later] + t[later..];
    } else {
      var f := reps[0];
      AscendingBound(reps[1..], f.to, |t|);
      var rest := AllAtOnce(t, reps[1..], f.to);
      assert t[at..f.from] == t[at..later] + t[later..f.from];
      assert t[at..later] + (t[later..f.from] + f.text + rest) == t[at..later] + t[later..f.from] + f.text + rest;
    }
  }

  predicate AllValid(ls: seq<string>, es: seq<TextEdit>) {
    forall i :: 0 <= i < |es| ==> ValidRange(ls, es[i].range)
  }

  /** What one edit means in the joined text; its own text takes the document's line ends. */
  function Flat(ls: seq<string>, eol: string, e: TextEdit): Replacement
    requires ValidRange(ls, e.range)
  {
    Replacement(FlatIndex(ls, eol, From(ls, e.range)), FlatIndex(ls, eol, To(ls, e.range)), Join(Lines(e.text), eol))
  }

  /** The edits, given end to start, as replacements from start to end. */
  function Flats(ls: seq<string>, eol: string, es: seq<TextEdit>): seq<Replacement>
    requires AllValid(ls, es)
  {
    if es == [] then []
    else [Flat(ls, eol, es[|es| - 1])] + Flats(ls, eol, es[..|es| - 1])
  }

  /** The change reported for `e`: offset and length in UTF-16 units of the text before any edit. */
  function PreEditChange(ls: seq<string>, eol: string, e: TextEdit): ContentChange
    requires ValidRange(ls, e.range)
  {
    var f := Flat(ls, eol, e);
    FlatIndexMonotone(ls, eol, From(ls, e.range), To(ls, e.range));
    ContentChange(e.range, Units(Join(ls, eol)[..f.from]), Units(Join(ls, eol)[f.from..f.to]), f.text)
  }

  function PreEditChanges(ls: seq<string>, eol: string, es: seq<TextEdit>): seq<ContentChange>
    requires AllValid(ls, es)
  {
    if es == [] then []
    else PreEditChanges(ls, eol, es[..|es| - 1]) + [PreEditChange(ls, eol, es[|es| - 1])]
  }

  /** What the edits made so far, all at or after `p`, have left behind. */
  ghost predicate InStep(ls: seq<string>, eol: string, es: seq<TextEdit>, done: Edited)
    requires AllValid(ls, es)
  {
    && ApplyEach(ls, eol, es) == Ok(done)
    && Ascending(Flats(ls, eol, es), 0, |Join(ls, eol)|)
    && Join(done.lines, eol) == AllAtOnce(Join(ls, eol), Flats(ls, eol, es), 0)
    && done.changes == PreEditChanges(ls, eol, es)
    && (es != [] ==> AgreeUpTo(done.lines, ls, From(ls, es[|es| - 1].range)))
    && (AllUnbroken(ls) ==> AllUnbroken(done.lines))
  }

  /** An edit against a document that agrees with the original up to the edit's end reports the original's offsets. */
  lemma OneAgrees(cur: seq<string>, ls: seq<string>, eol: string, e: TextEdit)
    requires ValidRange(ls, e.range) && AgreeUpTo(cur, ls, To(ls, e.range))
    ensures var p, q := From(ls, e.range), To(ls, e.range);
            && AgreeUpTo(cur, ls, p) && Within(cur, q)
            && ApplyOneSpec(cur, eol, e) == Ok(Edited(Splice(cur, p, q, e.text), [PreEditChange(ls, eol, e)]))
            && FlatIndex(cur, eol, p) == FlatIndex(ls, eol, p) && FlatIndex(cur, eol, q) == FlatIndex(ls, eol, q)
  {
    var r, p, q := e.range, From(ls, e.range), To(ls, e.range);
    LocateShared(cur, ls, r.startLine, r.startColumn, p, q);
    LocateShared(cur, ls, r.endLine, r.endColumn, q, q);
    OffsetIsUnits(cur, eol, r.startLine, r.startColumn, p);
    OffsetIsUnits(cur, eol, r.endLine, r.endColumn, q);
    OffsetIsUnits(ls, eol, r.startLine, r.startColumn, p);
    OffsetIsUnits(ls, eol, r.endLine, r.endColumn, q);
    FlatIndexMonotone(ls, eol, p, q);
    var t, from, to := Join(ls, eol), FlatIndex(ls, eol, p), FlatIndex(ls, eol, q);
    UnitsSplit(t[..to], from);
    assert t[..to][..from] == t[..from] && t[..to][from..] == t[from..to];
  }

  lemma OneMoreFlat(t: string, reps: seq<Replacement>, f: Replacement, cur: string, next: string)
    requires Ascending(reps, 0, |t|) && f.from <= f.to && Ascending(reps, f.to, |t|)
    requires cur == AllAtOnce(t, reps, 0)
    requires f.to <= |cur| && next == cur[..f.from] + f.text + cur[f.to..]
    ensures Ascending([f] + reps, 0, |t|)
    ensures next == AllAtOnce(t, [f] + reps, 0)
  {
    AllAtOnceCut(t, reps, 0, f.to);
    assert ([f] + reps)[1..] == reps;
    assert cur[..f.from] == t[0..f.from];
    assert cur[f.to..] == AllAtOnce(t, reps, f.to);
  }

  /** The replacements already made start at or after the next edit's end. */
  lemma FlatsAfter(ls: seq<string>, eol: string, before: seq<TextEdit>, e: TextEdit)
    requires AllValid(ls, before) && ValidRange(ls, e.range)
    requires before != [] ==> EndsBefore(e, before[|before| - 1])
    requires Ascending(Flats(ls, eol, before), 0, |Join(ls, eol)|)
    ensures Ascending(Flats(ls, eol, before), FlatIndex(ls, eol, To(ls, e.range)), |Join(ls, eol)|)
    ensures before != [] ==> AtMost(To(ls, e.range), From(ls, before[|before| - 1].range))
  {
    if before != [] {
      var r, s := e.range, before[|before| - 1].range;
      LocateMonotone(ls, r.endLine, r.endColumn, s.startLine, s.startColumn, To(ls, r), From(ls, s));
      FlatIndexMonotone(ls, eol, To(ls, r), From(ls, s));
    }
  }

  /** Applying spaced edits end to start, against lines that change underneath, is replacing all of them at once. */
  lemma {:induction false} Simultaneous(ls: seq<string>, eol: string, es: seq<TextEdit>) returns (done: Edited)
    requires ls != [] && AllValid(ls, es) && Spaced(es)
    ensures InStep(ls, eol, es, done)
  {
    if es == [] {
      done := Edited(ls, []);
    } else {
      var before, e := es[..|es| - 1], es[|es| - 1];
      assert before != [] ==> es[|es| - 2] == before[|before| - 1];
      var prior := Simultaneous(ls, eol, before);
      FlatsAfter(ls, eol, before, e);
      var p, q := From(ls, e.range), To(ls, e.range);
      if before == [] {
        assert prior.lines == ls;
      } else {
        AgreeEarlier(prior.lines, ls, q, From(ls, before[|before| - 1].range));
      }
      OneAgrees(prior.lines, ls, eol, e);
      SpliceFlat(prior.lines, eol, p, q, e.text);
      FlatIndexMonotone(ls, eol, p, q);
      done := Edited(Splice(prior.lines, p, q, e.text), prior.changes + [PreEditChange(ls, eol, e)]);
      OneMoreFlat(Join(ls, eol), Flats(ls, eol, before), Flat(ls, eol, e), Join(prior.lines, eol),
          Join(done.lines, eol));
      SpliceAgrees(prior.lines, p, q, e.text);
      if AllUnbroken(ls) {
        SpliceUnbroken(prior.lines, p, q, e.text);
      }
    }
  }

  lemma {:induction false} NoBadRange(ls: seq<string>, edits: seq<TextEdit>)
    ensures FirstBadRange(ls, edits).None? <==> AllValid(ls, edits)
  {
    if edits == [] {
    } else {
      NoBadRange(ls, edits[1..]);
      assert AllValid(ls, edits) <==> ValidRange(ls, edits[0].range) && AllValid(ls, edits[1..]) by {
        assert edits == [edits[0]] + edits[1..];
      }
    }
  }

  lemma SortedValid(ls: seq<string>, edits: seq<TextEdit>)
    requires AllValid(ls, edits)
    ensures AllValid(ls, EndToStart(edits))
  {
    EndToStartSorts(edits);
    var es := EndToStart(edits);
    forall i | 0 <= i < |es|
      ensures ValidRange(ls, es[i].range)
    {
      assert es[i] in multiset(edits);
    }
  }

  /** Once the checks have passed, no replacement can fail: a change is applied whole or not at all. */
  lemma EditsApply(ls: seq<string>, eol: string, edits: seq<TextEdit>)
    requires ls != [] && FirstBadRange(ls, edits).None? && Spaced(EndToStart(edits))
    ensures ApplyEach(ls, eol, EndToStart(edits)).Ok?
  {
    NoBadRange(ls, edits);
    SortedValid(ls, edits);
    var done := Simultaneous(ls, eol, EndToStart(edits));
  }

  lemma {:induction false} EditsApplyPrefix(ls: seq<string>, eol: string, es: seq<TextEdit>, n: nat)
    requires n <= |es| && ApplyEach(ls, eol, es).Ok?
    ensures ApplyEach(ls, eol, es[..n]).Ok?
    decreases |es|
  {
    if n == |es| {
      assert es[..n] == es;
    } else {
      EditsApplyPrefix(ls, eol, es[..|es| - 1], n);
      assert es[..|es| - 1][..n] == es[..n];
    }
  }

  /** The conditions under which an operation is accepted. */
  predicate Accepts(d: Doc, change: EditorChange) {
    && AllValid(d.lines, change.edits)
    && Spaced(EndToStart(change.edits))
    && NewVersion(d.version, change.version).Some?
  }

  /** Multi-cursor edits: accepted exactly under the three checks, rejected without a trace, and otherwise the new
      text is the old one with all ranges replaced at once, every offset and length exact in the old text. */
  lemma MultiCursorEdit(d: Doc, change: EditorChange)
    requires d.Valid()
    ensures var o := ApplySpec(d, change);
            && (o.result.Ok? <==> Accepts(d, change))
            && (o.result.Err? ==> o.doc == d)
            && o.doc.Valid()
    ensures var o, es := ApplySpec(d, change), EndToStart(change.edits);
            Accepts(d, change) ==>
              && AllValid(d.lines, es)
              && Ascending(Flats(d.lines, d.eol, es), 0, |d.Content()|)
              && o.doc.Content() == AllAtOnce(d.Content(), Flats(d.lines, d.eol, es), 0)
              && o.result.value.changes == PreEditChanges(d.lines, d.eol, es)
              && o.doc.version == o.result.value.versionId > d.version
              && o.doc.version == (match change.version case Some(v) => v case None => d.version + 1)
              && (o.result.value.isUndoing <==> change.reason == Undo)
              && (o.result.value.isRedoing <==> change.reason == Redo)
              && !o.result.value.isFlush && !o.result.value.isEolChange
              && o.doc.eol == o.result.value.eol == d.eol && o.doc.dirty
              && (StandardEol(d.eol) ==> o.doc.lines == Lines(o.doc.Content()))
  {
    NoBadRange(d.lines, change.edits);
    if Accepts(d, change) {
      SortedValid(d.lines, change.edits);
      var done := Simultaneous(d.lines, d.eol, EndToStart(change.edits));
      SplicedNotEmpty(d.lines, d.eol, EndToStart(change.edits));
      if StandardEol(d.eol) {
        LinesOfJoin(done.lines, d.eol);
      }
    }
  }

  lemma {:induction false} SplicedNotEmpty(ls: seq<string>, eol: string, es: seq<TextEdit>)
    requires ls != [] && ApplyEach(ls, eol, es).Ok?
    ensures ApplyEach(ls, eol, es).value.lines != []
  {
  }

  /** `replace_all` never fails: it reports the whole old text as one change and leaves exactly the new text, in the
      document's line ends. */
  lemma ReplaceAllIsFlush(d: Doc, text: string)
    requires d.Valid()
    ensures var o := ReplaceAllSpec(d, text);
            && o.result.Ok? && o.doc.Valid()
            && o.doc.lines == Lines(text)
            && o.result.value.changes
                == [ContentChange(FullRange(d.lines), 0, Units(d.Content()), Join(Lines(text), d.eol))]
            && o.doc.version == d.version + 1 && o.doc.dirty == d.dirty && o.doc.eol == d.eol
            && o.result.value.isFlush && !o.result.value.isEolChange
            && !o.result.value.isUndoing && !o.result.value.isRedoing
            && o.result.value.versionId == o.doc.version && o.result.value.eol == d.eol
  {
    var ls, full := d.lines, FullRange(d.lines);
    FullRangeLocated(ls, d.eol);
    FullSplice(ls, text);
    LinesUnbroken(text);
  }

  lemma FullRangeLocated(ls: seq<string>, eol: string)
    requires ls != []
    ensures var r, q := FullRange(ls), Loc(|ls| - 1, |ls[|ls| - 1]|);
            && Locate(ls, 1, 1) == Ok(Loc(0, 0)) && OffsetAt(ls, eol, 1, 1) == Ok(0)
            && Locate(ls, r.endLine, r.endColumn) == Ok(q)
            && OffsetAt(ls, eol, r.endLine, r.endColumn) == Ok(Units(Join(ls, eol)))
  {
    var r, q := FullRange(ls), Loc(|ls| - 1, |ls[|ls| - 1]|);
    assert ls[q.line][..q.index] == ls[q.line];
    LocateExact(ls, 1, 1, Loc(0, 0));
    LocateExact(ls, r.endLine, r.endColumn, q);
    OffsetIsUnits(ls, eol, r.endLine, r.endColumn, q);
    assert Head(ls, q) == ls;
  }

  lemma FullSplice(ls: seq<string>, text: string)
    requires ls != []
    ensures Splice(ls, Loc(0, 0), Loc(|ls| - 1, |ls[|ls| - 1]|), text) == Lines(text)
  {
    var q := Loc(|ls| - 1, |ls[|ls| - 1]|);
    assert Head(ls, Loc(0, 0)) == [""];
    assert ls[q.line][q.index..] == "" && ls[q.line + 1..] == [];
    GlueEmpty(Lines(text));
  }
}
