/** CodeLenses: their lists, keys, decorations and the commands behind them (`ember/editor/src/codelens.rs`). */
module CodeLens {
  import opened Wrappers
  import opened Coords
  import opened Ordering
  import opened Keys
  import opened Decorations
  import opened Ids
  import Mirror
  import Transcripts

  type Json = Transcripts.Json

  datatype Command = Command(id: string, title: string, tooltip: Option<string>, arguments: seq<Json>)

  /** One lens of a reply: as received, with its range if that can be read and its command if it has one. */
  datatype LensDto = LensDto(dto: Json, range: Option<Mirror.Range>, command: Option<Command>)

  datatype Reply = Reply(cacheId: Option<int>, lenses: seq<LensDto>)

  datatype Lens = Lens(dto: Json, range: WidgetRange, command: Option<Command>, key: string)

  datatype LensList = LensList(handle: int, cacheId: Option<int>, serial: nat, lenses: seq<Lens>)

  /** What a decoration id leads to. */
  datatype Target = Target(doc: string, handle: int, index: nat)

  datatype Lenses = Lenses(byDoc: map<string, map<int, LensList>>, byId: map<nat, Target>, serial: nat)

  const NO_LENSES := Lenses(map[], map[], 0)

  // ---- keys ----------------------------------------------------------------------------------

  function LensKey(handle: int, line: nat, n: nat): string {
    Barred(Decimal(handle), Barred(Digits(line), Digits(n)))
  }

  lemma LensKeyInjective(h: int, l: nat, n: nat, h': int, l': nat, n': nat)
    requires LensKey(h, l, n) == LensKey(h', l', n')
    ensures h == h' && l == l' && n == n'
  {
    DecimalNoBar(h);
    DecimalNoBar(h');
    DecimalNoBar(l);
    DecimalNoBar(l');
    FirstBar(Decimal(h), Barred(Digits(l), Digits(n)), Decimal(h'), Barred(Digits(l'), Digits(n')));
    FirstBar(Digits(l), Digits(n), Digits(l'), Digits(n'));
    DecimalInjective(h, h');
    DigitsInjective(l, l');
    DigitsInjective(n, n');
  }

  /** The lines the readable lenses of a reply start on. */
  function LinesOf(dtos: seq<LensDto>): seq<nat> {
    if dtos == [] then []
    else
      var n := |dtos| - 1;
      LinesOf(dtos[..n]) + if dtos[n].range.Some? then [FromExthost(dtos[n].range.value).start.line] else []
  }

  /** The readable lenses, each with a key of its provider, its line and its number on that line. */
  function Taken(handle: int, dtos: seq<LensDto>): (r: seq<Lens>)
    ensures |r| == |LinesOf(dtos)|
  {
    if dtos == [] then []
    else
      var n := |dtos| - 1;
      var before := Taken(handle, dtos[..n]);
      match dtos[n].range
      case None => before
      case Some(range) =>
        var span: WidgetRange := FromExthost(range);
        var key := LensKey(handle, span.start.line, multiset(LinesOf(dtos[..n]))[span.start.line]);
        before + [Lens(dtos[n].dto, span, dtos[n].command, key)]
  }

  /** Every key is of this provider and no two are the same. */
  predicate KeysSound(handle: int, lenses: seq<Lens>) {
    && (forall i :: 0 <= i < |lenses| ==> OfProvider(handle, lenses[i].key))
    && (forall i, j :: 0 <= i < j < |lenses| ==> lenses[i].key != lenses[j].key)
  }

  /** A key that begins with the provider's number and a bar. */
  predicate OfProvider(handle: int, key: string) {
    var d := Decimal(handle);
    |d| < |key| && key[..|d|] == d && key[|d|] == '|'
  }

  lemma ProvidersDiffer(h: int, h': int, key: string)
    requires OfProvider(h, key) && OfProvider(h', key)
    ensures h == h'
  {
    var d, d' := Decimal(h), Decimal(h');
    DecimalNoBar(h);
    DecimalNoBar(h');
    assert key == Barred(d, key[|d| + 1..]);
    assert key == Barred(d', key[|d'| + 1..]);
    FirstBar(d, key[|d| + 1..], d', key[|d'| + 1..]);
    DecimalInjective(h, h');
  }

  /** The key of the `i`-th lens counts the lenses before it on its line. */
  lemma {:induction false} TakenKeys(handle: int, dtos: seq<LensDto>, i: nat)
    requires i < |Taken(handle, dtos)|
    ensures var ls := LinesOf(dtos); Taken(handle, dtos)[i].key == LensKey(handle, ls[i], multiset(ls[..i])[ls[i]])
  {
    var n := |dtos| - 1;
    if i < |LinesOf(dtos[..n])| {
      TakenKeys(handle, dtos[..n], i);
      assert LinesOf(dtos)[..i] == LinesOf(dtos[..n])[..i];
    } else {
      assert LinesOf(dtos)[..i] == LinesOf(dtos[..n]);
    }
  }

  lemma TakenSound(handle: int, dtos: seq<LensDto>)
    ensures KeysSound(handle, Taken(handle, dtos))
  {
    var r, ls := Taken(handle, dtos), LinesOf(dtos);
    forall i | 0 <= i < |r|
      ensures OfProvider(handle, r[i].key)
    {
      TakenKeys(handle, dtos, i);
    }
    forall i, j | 0 <= i < j < |r|
      ensures r[i].key != r[j].key
    {
      TakenKeys(handle, dtos, i);
      TakenKeys(handle, dtos, j);
      OccurrenceGrows(ls, i, j);
      if r[i].key == r[j].key {
        LensKeyInjective(handle, ls[i], multiset(ls[..i])[ls[i]], handle, ls[j], multiset(ls[..j])[ls[j]]);
      }
    }
  }

  // ---- lists ---------------------------------------------------------------------------------

  /** Indexes of the lenses without a command. */
  function Unresolved(lenses: seq<Lens>): seq<(nat, Json)> {
    if lenses == [] then []
    else
      var n := |lenses| - 1;
      Unresolved(lenses[..n]) + if lenses[n].command.None? then [(n, lenses[n].dto)] else []
  }

  function FirstOf<T>(s: seq<T>, n: nat): seq<T> {
    if n <= |s| then s[..n] else s
  }

  datatype SetOutcome = SetOutcome(release: Option<int>, toResolve: seq<(nat, Json)>, serial: nat)

  function ListsOf(c: Lenses, doc: string): map<int, LensList> {
    if doc in c.byDoc then c.byDoc[doc] else map[]
  }

  function SetSpec(c: Lenses, doc: string, handle: int, reply: Reply, cap: nat): (Lenses, SetOutcome) {
    var serial := c.serial + 1;
    var lenses := Taken(handle, reply.lenses);
    var lists := ListsOf(c, doc);
    (Lenses(c.byDoc[doc := lists[handle := LensList(handle, reply.cacheId, serial, lenses)]], c.byId, serial),
     SetOutcome(if handle in lists then lists[handle].cacheId else None, FirstOf(Unresolved(lenses), cap), serial))
  }

  function WithLens(c: Lenses, doc: string, handle: int, index: nat, lens: Lens): Lenses
    requires doc in c.byDoc && handle in c.byDoc[doc] && index < |c.byDoc[doc][handle].lenses|
  {
    var list := c.byDoc[doc][handle];
    c.(byDoc := c.byDoc[doc := c.byDoc[doc][handle := list.(lenses := list.lenses[index := lens])]])
  }

  /** May a resolve reply be stored: its list is still the current one and has the lens? */
  predicate Current(c: Lenses, doc: string, handle: int, serial: nat, index: nat) {
    doc in c.byDoc && handle in c.byDoc[doc] && c.byDoc[doc][handle].serial == serial
        && index < |c.byDoc[doc][handle].lenses|
  }

  function ResolvedSpec(c: Lenses, doc: string, handle: int, serial: nat, index: nat,
      command: Option<Command>): (Lenses, bool) {
    if Current(c, doc, handle, serial, index) && command.Some? then
      (WithLens(c, doc, handle, index, c.byDoc[doc][handle].lenses[index].(command := command)), true)
    else (c, false)
  }

  /** A lens whose range was deleted stays in its place without a command. */
  function CarriedLens(lens: Lens, edit: WidgetRange, text: string): Lens {
    match Carried(lens.range, edit, text)
    case Some(r) => lens.(range := r)
    case None => lens.(command := None)
  }

  /** An edit takes a lens's command exactly when it wholly replaces its non-empty range; otherwise the
      lens keeps its command and stands at a range of the edited document. */
  lemma LensCarriedExactly(ls: seq<string>, eol: string, lens: Lens, edit: WidgetRange, text: string)
    requires ValidSpan(ls, lens.range) && ValidSpan(ls, edit) && eol != ""
    ensures var r := CarriedLens(lens, edit, text);
            && r.key == lens.key && r.dto == lens.dto
            && if !lens.range.IsEmpty() && edit.start.NotAfter(lens.range.start) && lens.range.end.NotAfter(edit.end)
               then r == lens.(command := None)
               else r.command == lens.command && Refines(ls, eol, lens.range, edit, text, Some(r.range))
  {
    DroppedExactly(ls, lens.range, edit, text);
    TransformRefinesOffsets(ls, eol, lens.range, edit, text);
  }

  function CarriedEach(lenses: seq<Lens>, edit: WidgetRange, text: string): (r: seq<Lens>)
    ensures |r| == |lenses| && forall i :: 0 <= i < |r| ==> r[i] == CarriedLens(lenses[i], edit, text)
  {
    seq(|lenses|, i requires 0 <= i < |lenses| => CarriedLens(lenses[i], edit, text))
  }

  function CarriedList(list: LensList, edit: WidgetRange, text: string): LensList {
    list.(lenses := CarriedEach(list.lenses, edit, text))
  }

  function CarriedLists(lists: map<int, LensList>, edit: WidgetRange, text: string): map<int, LensList> {
    map h | h in lists :: CarriedList(lists[h], edit, text)
  }

  function EditedSpec(c: Lenses, doc: string, edit: WidgetRange, text: string): Lenses {
    if doc in c.byDoc then c.(byDoc := c.byDoc[doc := CarriedLists(c.byDoc[doc], edit, text)]) else c
  }

  function Without(byId: map<nat, Target>, doc: string): map<nat, Target> {
    map id | id in byId && byId[id].doc != doc :: byId[id]
  }

  function ClosedSpec(c: Lenses, doc: string): Lenses {
    c.(byDoc := c.byDoc - {doc}, byId := Without(c.byId, doc))
  }

  function ProviderRemoved(c: Lenses, handle: int): Lenses {
    c.(byDoc := map doc | doc in c.byDoc :: c.byDoc[doc] - {handle})
  }

  // ---- what the lists keep -------------------------------------------------------------------

  predicate ListSound(handle: int, list: LensList) {
    list.handle == handle && KeysSound(handle, list.lenses)
  }

  /** Every list is filed under its provider, and its keys are the provider's own. */
  predicate Sound(c: Lenses) {
    forall doc, h :: doc in c.byDoc && h in c.byDoc[doc] ==> ListSound(h, c.byDoc[doc][h])
  }

  lemma SameKeysSound(handle: int, a: seq<Lens>, b: seq<Lens>)
    requires KeysSound(handle, a) && |a| == |b| && forall i :: 0 <= i < |a| ==> a[i].key == b[i].key
    ensures KeysSound(handle, b)
  {
  }

  // ---- drawing -------------------------------------------------------------------------------

  /** A lens with a title, and where it is. */
  datatype Slot = Slot(handle: int, index: nat, key: string, command: Command, range: WidgetRange)

  predicate Titled(lens: Lens) {
    lens.command.Some? && lens.command.value.title != ""
  }

  /** The titled ones among the first `n` lenses of a list. */
  function ListSlots(handle: int, lenses: seq<Lens>, n: nat): seq<Slot>
    requires n <= |lenses|
  {
    if n == 0 then []
    else
      var lens := lenses[n - 1];
      ListSlots(handle, lenses, n - 1)
        + if Titled(lens) then [Slot(handle, n - 1, lens.key, lens.command.value, lens.range)] else []
  }

  predicate Lower(a: int, b: int) {
    a < b
  }

  predicate Listed(handles: seq<int>, lists: map<int, LensList>) {
    forall k :: 0 <= k < |handles| ==> handles[k] in lists
  }

  function AllSlots(handles: seq<int>, lists: map<int, LensList>): seq<Slot>
    requires Listed(handles, lists)
  {
    if handles == [] then []
    else
      var n := |handles| - 1;
      var lenses := lists[handles[n]].lenses;
      AllSlots(handles[..n], lists) + ListSlots(handles[n], lenses, |lenses|)
  }

  /** The providers of some lists, in order. */
  function HandlesOf(lists: map<int, LensList>): (handles: seq<int>)
    ensures Listed(handles, lists) && Rising(handles)
  {
    var handles := Ordered(lists.Keys, Lower);
    assert forall k :: 0 <= k < |handles| ==> handles[k] in handles;
    handles
  }

  predicate Rising(handles: seq<int>) {
    forall i, j :: 0 <= i < j < |handles| ==> handles[i] < handles[j]
  }

  lemma HandlesOfAll(lists: map<int, LensList>, h: int)
    requires h in lists
    ensures h in HandlesOf(lists)
  {
  }

  /** The titled lenses of a document, providers in order. */
  function Slots(c: Lenses, doc: string): seq<Slot> {
    var lists := ListsOf(c, doc);
    AllSlots(HandlesOf(lists), lists)
  }

  function KeysOf(slots: seq<Slot>): (r: seq<string>)
    ensures |r| == |slots|
  {
    seq(|slots|, i requires 0 <= i < |slots| => slots[i].key)
  }

  function Drawn(slot: Slot, id: nat, version: nat, lines: seq<string>): Decoration {
    Decoration(id, version, LensTitle, None, 0, Clamped(lines, slot.range), slot.command.title)
  }

  function DrawnEach(slots: seq<Slot>, ids: seq<nat>, version: nat, lines: seq<string>): (r: seq<Decoration>)
    requires |ids| == |slots|
    ensures |r| == |slots| && forall i :: 0 <= i < |r| ==> r[i] == Drawn(slots[i], ids[i], version, lines)
  {
    seq(|slots|, i requires 0 <= i < |slots| => Drawn(slots[i], ids[i], version, lines))
  }

  /** Each id leads to its slot; a later one of the same id wins. */
  function Filed(byId: map<nat, Target>, doc: string, slots: seq<Slot>, ids: seq<nat>): map<nat, Target>
    requires |ids| == |slots|
  {
    if slots == [] then byId
    else
      var n := |slots| - 1;
      Filed(byId, doc, slots[..n], ids[..n])[ids[n] := Target(doc, slots[n].handle, slots[n].index)]
  }

  function Draw(c: Lenses, doc: string, version: nat, lines: seq<string>, t: Table): (Lenses, Table, seq<Decoration>) {
    var slots := Slots(c, doc);
    var asked := AskedEach(t, Space.CodeLens, doc, KeysOf(slots));
    (c.(byId := Filed(Without(c.byId, doc), doc, slots, asked.1)),
     Retained(asked.0, Space.CodeLens, doc, SetOf(asked.1)),
     Arranged(DrawnEach(slots, asked.1, version, lines)))
  }

  /** The provider and command behind an id. */
  function CommandFor(c: Lenses, id: nat): Option<(int, Command)> {
    if id !in c.byId then None
    else
      var t := c.byId[id];
      if t.doc in c.byDoc && t.handle in c.byDoc[t.doc] && t.index < |c.byDoc[t.doc][t.handle].lenses| then
        match c.byDoc[t.doc][t.handle].lenses[t.index].command
        case None => None
        case Some(command) => Some((t.handle, command))
      else None
  }

  // ---- ids and commands ----------------------------------------------------------------------

  /** A slot is what its list holds. */
  predicate SlotHeld(lists: map<int, LensList>, s: Slot) {
    && s.handle in lists && s.index < |lists[s.handle].lenses|
    && var lens := lists[s.handle].lenses[s.index];
       lens.key == s.key && lens.command == Some(s.command)
  }

  lemma {:induction false} ListSlotsHeld(handle: int, lenses: seq<Lens>, n: nat)
    requires n <= |lenses|
    ensures forall i :: 0 <= i < |ListSlots(handle, lenses, n)| ==>
              var s := ListSlots(handle, lenses, n)[i];
              s.handle == handle && s.index < n && lenses[s.index].key == s.key
                  && lenses[s.index].command == Some(s.command)
    ensures forall i, j :: 0 <= i < j < |ListSlots(handle, lenses, n)| ==>
              ListSlots(handle, lenses, n)[i].index < ListSlots(handle, lenses, n)[j].index
  {
    if n == 0 {
    } else {
      ListSlotsHeld(handle, lenses, n - 1);
    }
  }

  lemma ListSlotsDistinct(handle: int, lenses: seq<Lens>)
    requires KeysSound(handle, lenses)
    ensures var s := ListSlots(handle, lenses, |lenses|);
            && (forall i, j :: 0 <= i < j < |s| ==> s[i].key != s[j].key)
            && (forall i :: 0 <= i < |s| ==> OfProvider(handle, s[i].key))
  {
    ListSlotsHeld(handle, lenses, |lenses|);
  }

  predicate SlotsSound(lists: map<int, LensList>, slots: seq<Slot>) {
    && (forall i :: 0 <= i < |slots| ==> SlotHeld(lists, slots[i]) && OfProvider(slots[i].handle, slots[i].key))
    && (forall i, j :: 0 <= i < j < |slots| ==> slots[i].key != slots[j].key)
  }

  lemma ListSlotsSound(lists: map<int, LensList>, h: int)
    requires h in lists && ListSound(h, lists[h])
    ensures var s := ListSlots(h, lists[h].lenses, |lists[h].lenses|);
            SlotsSound(lists, s) && forall i :: 0 <= i < |s| ==> s[i].handle == h
  {
    var lenses := lists[h].lenses;
    ListSlotsDistinct(h, lenses);
    ListSlotsHeld(h, lenses, |lenses|);
  }

  /** Slots of one provider after those of others. */
  lemma SlotsJoin(lists: map<int, LensList>, a: seq<Slot>, b: seq<Slot>, h: int)
    requires SlotsSound(lists, a) && SlotsSound(lists, b)
    requires forall i :: 0 <= i < |a| ==> a[i].handle != h
    requires forall i :: 0 <= i < |b| ==> b[i].handle == h
    ensures SlotsSound(lists, a + b)
  {
    forall i, j | 0 <= i < |a| && 0 <= j < |b|
      ensures a[i].key != b[j].key
    {
      if a[i].key == b[j].key {
        ProvidersDiffer(a[i].handle, h, a[i].key);
      }
    }
  }

  predicate AtMostHandle(slots: seq<Slot>, h: int) {
    forall i :: 0 <= i < |slots| ==> slots[i].handle <= h
  }

  lemma {:induction false} AllSlotsSound(handles: seq<int>, lists: map<int, LensList>)
    requires Listed(handles, lists) && Rising(handles)
    requires forall k :: 0 <= k < |handles| ==> ListSound(handles[k], lists[handles[k]])
    ensures SlotsSound(lists, AllSlots(handles, lists))
    ensures handles != [] ==> AtMostHandle(AllSlots(handles, lists), handles[|handles| - 1])
  {
    if handles == [] {
    } else {
      var n := |handles| - 1;
      var h := handles[n];
      AllSlotsSound(handles[..n], lists);
      ListSlotsSound(lists, h);
      assert n > 0 ==> handles[..n][n - 1] == handles[n - 1] < h;
      SlotsJoin(lists, AllSlots(handles[..n], lists), ListSlots(h, lists[h].lenses, |lists[h].lenses|), h);
    }
  }

  lemma SlotsAreSound(c: Lenses, doc: string)
    requires Sound(c)
    ensures SlotsSound(ListsOf(c, doc), Slots(c, doc))
  {
    var lists := ListsOf(c, doc);
    AllSlotsSound(HandlesOf(lists), lists);
  }

  /** Different ids are filed where they belong. */
  lemma {:induction false} FiledEach(byId: map<nat, Target>, doc: string, slots: seq<Slot>, ids: seq<nat>)
    requires |ids| == |slots| && forall i, j :: 0 <= i < j < |ids| ==> ids[i] != ids[j]
    ensures forall i :: 0 <= i < |ids| ==>
              && ids[i] in Filed(byId, doc, slots, ids)
              && Filed(byId, doc, slots, ids)[ids[i]] == Target(doc, slots[i].handle, slots[i].index)
  {
    if slots == [] {
    } else {
      FiledEach(byId, doc, slots[..|slots| - 1], ids[..|slots| - 1]);
    }
  }

  /** A drawn lens has an id of its space, which leads to the command whose title it shows. */
  predicate Leads(c: Lenses, x: Decoration) {
    && x.id != 0 && SpaceOf(x.id) == Some(Space.CodeLens)
    && CommandFor(c, x.id).Some? && CommandFor(c, x.id).value.1.title == x.text
  }

  /** Every drawn lens has an id no other has, and leads to its command. */
  predicate AllLead(c: Lenses, out: seq<Decoration>) {
    DistinctIds(out) && forall x :: x in out ==> Leads(c, x)
  }

  lemma SlotLeads(c: Lenses, doc: string, s: Slot, id: nat, version: nat, lines: seq<string>)
    requires SlotHeld(ListsOf(c, doc), s) && id != 0 && SpaceOf(id) == Some(Space.CodeLens)
    requires id in c.byId && c.byId[id] == Target(doc, s.handle, s.index)
    ensures Leads(c, Drawn(s, id, version, lines))
  {
  }

  /** Lenses drawn under different ids all lead to their commands, in whatever order. */
  lemma DrawnLead(c: Lenses, byId: map<nat, Target>, doc: string, slots: seq<Slot>, ids: seq<nat>, version: nat,
      lines: seq<string>)
    requires SlotsSound(ListsOf(c, doc), slots) && IdsOwn(slots, ids) && c.byId == Filed(byId, doc, slots, ids)
    ensures AllLead(c, Arranged(DrawnEach(slots, ids, version, lines)))
  {
    FiledEach(byId, doc, slots, ids);
    var ds := DrawnEach(slots, ids, version, lines);
    ArrangedDistinct(ds);
    ArrangedSame(ds);
    forall x | x in Arranged(ds)
      ensures Leads(c, x)
    {
      assert x in multiset(Arranged(ds));
      var i :| 0 <= i < |ds| && ds[i] == x;
      SlotLeads(c, doc, slots[i], ids[i], version, lines);
    }
  }

  /** The ids of a document's lenses, and their slots. */
  predicate IdsOwn(slots: seq<Slot>, ids: seq<nat>) {
    && |ids| == |slots|
    && (forall i, j :: 0 <= i < j < |ids| ==> ids[i] != ids[j])
    && (forall i :: 0 <= i < |ids| ==> ids[i] != 0 && SpaceOf(ids[i]) == Some(Space.CodeLens))
  }

  lemma AskedOwn(lists: map<int, LensList>, slots: seq<Slot>, doc: string, t: Table)
    requires SlotsSound(lists, slots) && Valid(t) && Roomy(AskedEach(t, Space.CodeLens, doc, KeysOf(slots)).0)
    ensures IdsOwn(slots, AskedEach(t, Space.CodeLens, doc, KeysOf(slots)).1)
  {
    AskedEachDistinct(t, Space.CodeLens, doc, KeysOf(slots));
  }

  lemma FiledLead(c: Lenses, doc: string, slots: seq<Slot>, ids: seq<nat>, version: nat, lines: seq<string>)
    requires SlotsSound(ListsOf(c, doc), slots) && IdsOwn(slots, ids)
    ensures AllLead(c.(byId := Filed(Without(c.byId, doc), doc, slots, ids)),
        Arranged(DrawnEach(slots, ids, version, lines)))
  {
    var d := c.(byId := Filed(Without(c.byId, doc), doc, slots, ids));
    assert ListsOf(d, doc) == ListsOf(c, doc);
    DrawnLead(d, Without(c.byId, doc), doc, slots, ids, version, lines);
  }

  /** While there is room, the lenses drawn have ids of their own, and each leads to the command whose title is
      shown. */
  lemma EveryLensResolves(c: Lenses, doc: string, version: nat, lines: seq<string>, t: Table)
    requires Sound(c) && Valid(t) && Roomy(Draw(c, doc, version, lines, t).1)
    ensures AllLead(Draw(c, doc, version, lines, t).0, Draw(c, doc, version, lines, t).2)
  {
    var slots := Slots(c, doc);
    var ids := AskedEach(t, Space.CodeLens, doc, KeysOf(slots)).1;
    SlotsAreSound(c, doc);
    AskedOwn(ListsOf(c, doc), slots, doc, t);
    FiledLead(c, doc, slots, ids, version, lines);
  }

  lemma DrawnKeeps(c: Lenses, doc: string, version: nat, lines: seq<string>, t: Table)
    requires Sound(c) && Valid(t) && Roomy(Draw(c, doc, version, lines, t).1)
    ensures Sound(Draw(c, doc, version, lines, t).0) && Valid(Draw(c, doc, version, lines, t).1)
  {
    KeptHeld(t, Space.CodeLens, doc, KeysOf(Slots(c, doc)));
  }

  // ---- runs ----------------------------------------------------------------------------------

  datatype Event =
    | ListSet(doc: string, handle: int, reply: Reply, cap: nat)
    | LensResolved(doc: string, handle: int, serial: nat, index: nat, command: Option<Command>)
    | DocEdited(doc: string, edit: WidgetRange, text: string)
    | LensesDrawn(doc: string, version: nat, lines: seq<string>)
    | DocClosed(doc: string)
    | ProviderGone(handle: int)
    | OtherIds(op: Op)

  /** The lenses and the id table they share with the other bridges. */
  datatype Shared = Shared(c: Lenses, t: Table)

  function Happened(s: Shared, e: Event): Shared {
    match e
    case ListSet(doc, handle, reply, cap) => s.(c := SetSpec(s.c, doc, handle, reply, cap).0)
    case LensResolved(doc, handle, serial, index, command) =>
      s.(c := ResolvedSpec(s.c, doc, handle, serial, index, command).0)
    case DocEdited(doc, edit, text) => s.(c := EditedSpec(s.c, doc, edit, text))
    case LensesDrawn(doc, version, lines) => var r := Draw(s.c, doc, version, lines, s.t); Shared(r.0, r.1)
    case DocClosed(doc) => s.(c := ClosedSpec(s.c, doc))
    case ProviderGone(handle) => s.(c := ProviderRemoved(s.c, handle))
    case OtherIds(op) => s.(t := Done(s.t, op))
  }

  function Ran(events: seq<Event>): Shared {
    if events == [] then Shared(NO_LENSES, NONE) else Happened(Ran(events[..|events| - 1]), events[|events| - 1])
  }

  lemma SetSound(c: Lenses, doc: string, handle: int, reply: Reply, cap: nat)
    requires Sound(c)
    ensures Sound(SetSpec(c, doc, handle, reply, cap).0)
  {
    TakenSound(handle, reply.lenses);
  }

  lemma ResolvedSound(c: Lenses, doc: string, handle: int, serial: nat, index: nat, command: Option<Command>)
    requires Sound(c)
    ensures Sound(ResolvedSpec(c, doc, handle, serial, index, command).0)
  {
    if Current(c, doc, handle, serial, index) {
      var lenses := c.byDoc[doc][handle].lenses;
      SameKeysSound(handle, lenses, lenses[index := lenses[index].(command := command)]);
    }
  }

  lemma EditedSound(c: Lenses, doc: string, edit: WidgetRange, text: string)
    requires Sound(c)
    ensures Sound(EditedSpec(c, doc, edit, text))
  {
    if doc in c.byDoc {
      forall h | h in c.byDoc[doc]
        ensures ListSound(h, CarriedLists(c.byDoc[doc], edit, text)[h])
      {
        SameKeysSound(h, c.byDoc[doc][h].lenses, CarriedEach(c.byDoc[doc][h].lenses, edit, text));
      }
    }
  }

  lemma DrawnNext(c: Lenses, doc: string, version: nat, lines: seq<string>, t: Table)
    ensures t.next <= Draw(c, doc, version, lines, t).1.next
  {
    AskedEachGrows(t, Space.CodeLens, doc, KeysOf(Slots(c, doc)));
  }

  lemma HappenedNext(s: Shared, e: Event)
    ensures s.t.next <= Happened(s, e).t.next
  {
    if e.LensesDrawn? {
      DrawnNext(s.c, e.doc, e.version, e.lines, s.t);
    }
  }

  lemma HappenedSound(s: Shared, e: Event)
    requires Sound(s.c) && Valid(s.t) && Roomy(Happened(s, e).t)
    ensures Sound(Happened(s, e).c) && Valid(Happened(s, e).t)
  {
    match e {
      case ListSet(doc, handle, reply, cap) => SetSound(s.c, doc, handle, reply, cap);
      case LensResolved(doc, handle, serial, index, command) => ResolvedSound(s.c, doc, handle, serial, index, command);
      case DocEdited(doc, edit, text) => EditedSound(s.c, doc, edit, text);
      case LensesDrawn(doc, version, lines) => DrawnKeeps(s.c, doc, version, lines, s.t);
      case DocClosed(doc) =>
      case ProviderGone(handle) =>
      case OtherIds(op) => DoneValid(s.t, op);
    }
  }

  lemma {:induction false} RanSound(events: seq<Event>)
    requires Roomy(Ran(events).t)
    ensures Sound(Ran(events).c) && Valid(Ran(events).t)
  {
    if events == [] {
    } else {
      var n := |events| - 1;
      HappenedNext(Ran(events[..n]), events[n]);
      RanSound(events[..n]);
      HappenedSound(Ran(events[..n]), events[n]);
    }
  }

  /** After any run with fewer than 2^56 ids given out, drawing a document's lenses gives each an id of its own that
      leads to its command. */
  lemma LensesResolveAfterAnyRun(events: seq<Event>, doc: string, version: nat, lines: seq<string>)
    requires Roomy(Draw(Ran(events).c, doc, version, lines, Ran(events).t).1)
    ensures var r := Draw(Ran(events).c, doc, version, lines, Ran(events).t); AllLead(r.0, r.2)
  {
    var s := Ran(events);
    DrawnNext(s.c, doc, version, lines, s.t);
    RanSound(events);
    EveryLensResolves(s.c, doc, version, lines, s.t);
  }

  // ---- the object itself ---------------------------------------------------------------------

  /** The lists of one document's first `k` providers, and `i` lenses of the next, drawn. */
  ghost predicate DrawnSoFar(slots: seq<Slot>, doc: string, version: nat, lines: seq<string>,
                             start: map<nat, Target>, before: Table,
                             byId: map<nat, Target>, now: Table, ids: seq<nat>, live: set<nat>, out: seq<Decoration>) {
    && |ids| == |slots|
    && (now, ids) == AskedEach(before, Space.CodeLens, doc, KeysOf(slots))
    && live == SetOf(ids)
    && byId == Filed(start, doc, slots, ids)
    && out == DrawnEach(slots, ids, version, lines)
  }

  lemma AskedOneMore(slots: seq<Slot>, slot: Slot, doc: string, before: Table, now: Table, ids: seq<nat>)
    requires (now, ids) == AskedEach(before, Space.CodeLens, doc, KeysOf(slots))
    ensures var r := Asked(now, Key(Space.CodeLens, doc, slot.key));
            (r.0, ids + [r.1]) == AskedEach(before, Space.CodeLens, doc, KeysOf(slots + [slot]))
  {
    var names := KeysOf(slots + [slot]);
    assert names == KeysOf(slots) + [slot.key];
    assert names[..|slots|] == KeysOf(slots);
  }

  lemma FiledOneMore(slots: seq<Slot>, slot: Slot, doc: string, start: map<nat, Target>, ids: seq<nat>, id: nat)
    requires |ids| == |slots|
    ensures Filed(start, doc, slots + [slot], ids + [id])
         == Filed(start, doc, slots, ids)[id := Target(doc, slot.handle, slot.index)]
  {
    assert (slots + [slot])[..|slots|] == slots;
    assert (ids + [id])[..|slots|] == ids;
  }

  lemma ShownOneMore(slots: seq<Slot>, slot: Slot, ids: seq<nat>, id: nat, version: nat, lines: seq<string>)
    requires |ids| == |slots|
    ensures DrawnEach(slots + [slot], ids + [id], version, lines)
        == DrawnEach(slots, ids, version, lines) + [Drawn(slot, id, version, lines)]
    ensures SetOf(ids + [id]) == SetOf(ids) + {id}
  {
  }

  lemma DrawnOneMore(slots: seq<Slot>, slot: Slot, doc: string, version: nat, lines: seq<string>,
                     start: map<nat, Target>, before: Table,
                     byId: map<nat, Target>, now: Table, ids: seq<nat>, live: set<nat>, out: seq<Decoration>)
    requires DrawnSoFar(slots, doc, version, lines, start, before, byId, now, ids, live, out)
    ensures var r := Asked(now, Key(Space.CodeLens, doc, slot.key));
            DrawnSoFar(slots + [slot], doc, version, lines, start, before,
                       byId[r.1 := Target(doc, slot.handle, slot.index)], r.0,
                       ids + [r.1], live + {r.1}, out + [Drawn(slot, r.1, version, lines)])
  {
    var id := Asked(now, Key(Space.CodeLens, doc, slot.key)).1;
    AskedOneMore(slots, slot, doc, before, now, ids);
    FiledOneMore(slots, slot, doc, start, ids, id);
    ShownOneMore(slots, slot, ids, id, version, lines);
  }

  function LineCount(perLine: map<nat, nat>, line: nat): nat {
    if line in perLine then perLine[line] else 0
  }

  ghost predicate LinesCounted(perLine: map<nat, nat>, ls: seq<nat>) {
    forall l: nat :: LineCount(perLine, l) == multiset(ls)[l]
  }

  /** The next lens of a reply: passed over if its range cannot be read, and else keyed by what was counted. */
  lemma TakenNext(handle: int, dtos: seq<LensDto>, n: nat, perLine: map<nat, nat>)
    requires n < |dtos| && LinesCounted(perLine, LinesOf(dtos[..n]))
    ensures match dtos[n].range
            case None =>
              Taken(handle, dtos[..n + 1]) == Taken(handle, dtos[..n]) && LinesOf(dtos[..n + 1]) == LinesOf(dtos[..n])
            case Some(range) =>
              var span: WidgetRange := FromExthost(range);
              var count := LineCount(perLine, span.start.line);
              && Taken(handle, dtos[..n + 1]) == Taken(handle, dtos[..n])
                   + [Lens(dtos[n].dto, span, dtos[n].command, LensKey(handle, span.start.line, count))]
              && LinesCounted(perLine[span.start.line := count + 1], LinesOf(dtos[..n + 1]))
  {
    assert dtos[..n + 1][..n] == dtos[..n];
  }

  lemma NextSlot(slots: seq<Slot>, handle: int, lenses: seq<Lens>, i: nat)
    requires i < |lenses|
    ensures slots + ListSlots(handle, lenses, i + 1)
         == (slots + ListSlots(handle, lenses, i))
            + if Titled(lenses[i]) then [Slot(handle, i, lenses[i].key, lenses[i].command.value, lenses[i].range)]
                else []
  {
  }

  lemma NextProvider(handles: seq<int>, lists: map<int, LensList>, k: nat)
    requires k < |handles| && Listed(handles, lists)
    ensures var lenses := lists[handles[k]].lenses;
            AllSlots(handles[..k + 1], lists) == AllSlots(handles[..k], lists) + ListSlots(handles[k], lenses, |lenses|)
  {
    var some := handles[..k + 1];
    assert some[..|some| - 1] == handles[..k] && some[|some| - 1] == handles[k];
  }

  /** The lists in `done` carried, the others as they were. */
  ghost predicate CarriedSoFar(was: map<int, LensList>, done: set<int>, edit: WidgetRange, text: string,
      lists: map<int, LensList>) {
    && lists.Keys == was.Keys
    && forall h :: h in was ==> lists[h] == if h in done then CarriedList(was[h], edit, text) else was[h]
  }

  lemma CarriedNext(was: map<int, LensList>, done: set<int>, h: int, edit: WidgetRange, text: string,
      lists: map<int, LensList>)
    requires CarriedSoFar(was, done, edit, text, lists) && h in was
    ensures CarriedSoFar(was, done + {h}, edit, text, lists[h := CarriedList(was[h], edit, text)])
  {
  }

  lemma DoneAll(was: map<int, LensList>, handles: seq<int>, done: set<int>)
    requires handles == HandlesOf(was) && forall j :: 0 <= j < |handles| ==> handles[j] in done
    ensures forall h :: h in was ==> h in done
  {
    forall h | h in was
      ensures h in done
    {
      HandlesOfAll(was, h);
      var j :| 0 <= j < |handles| && handles[j] == h;
    }
  }

  lemma CarriedAll(was: map<int, LensList>, done: set<int>, edit: WidgetRange, text: string, lists: map<int, LensList>)
    requires CarriedSoFar(was, done, edit, text, lists) && forall h :: h in was ==> h in done
    ensures lists == CarriedLists(was, edit, text)
  {
    assert forall h :: h in lists <==> h in was;
    assert forall h :: h in was ==> lists[h] == CarriedLists(was, edit, text)[h];
  }

  class CodeLenses {
    var byDoc: map<string, map<int, LensList>>
    var byId: map<nat, Target>
    var serial: nat

    ghost function View(): Lenses
      reads this
    {
      Lenses(byDoc, byId, serial)
    }

    constructor ()
      ensures View() == NO_LENSES
    {
      byDoc, byId, serial := map[], map[], 0;
    }

    method SetList(doc: string, handle: int, reply: Reply, cap: nat) returns (r: SetOutcome)
      modifies this
      ensures View() == SetSpec(old(View()), doc, handle, reply, cap).0
      ensures r == SetSpec(old(View()), doc, handle, reply, cap).1
    {
      serial := serial + 1;
      var lenses := ReadLenses(handle, reply.lenses);
      var toResolve := FirstOf(Unresolved(lenses), cap);
      var lists := if doc in byDoc then byDoc[doc] else map[];
      var release := if handle in lists then lists[handle].cacheId else None;
      byDoc := byDoc[doc := lists[handle := LensList(handle, reply.cacheId, serial, lenses)]];
      r := SetOutcome(release, toResolve, serial);
    }

    static method ReadLenses(handle: int, dtos: seq<LensDto>) returns (lenses: seq<Lens>)
      ensures lenses == Taken(handle, dtos)
    {
      lenses := [];
      var perLine: map<nat, nat> := map[];
      for n := 0 to |dtos|
        invariant lenses == Taken(handle, dtos[..n])
        invariant LinesCounted(perLine, LinesOf(dtos[..n]))
      {
        TakenNext(handle, dtos, n, perLine);
        match dtos[n].range {
          case None =>
          case Some(range) =>
            var span: WidgetRange := FromExthost(range);
            var count := LineCount(perLine, span.start.line);
            perLine := perLine[span.start.line := count + 1];
            lenses := lenses + [Lens(dtos[n].dto, span, dtos[n].command, LensKey(handle, span.start.line, count))];
        }
      }
      assert dtos[..|dtos|] == dtos;
    }

    method Resolved(doc: string, handle: int, number: nat, index: nat, command: Option<Command>) returns (changed: bool)
      modifies `byDoc
      ensures (View(), changed) == ResolvedSpec(old(View()), doc, handle, number, index, command)
    {
      if doc !in byDoc || handle !in byDoc[doc] {
        return false;
      }
      var list := byDoc[doc][handle];
      if list.serial != number || index >= |list.lenses| || command.None? {
        return false;
      }
      var lens := list.lenses[index].(command := command);
      byDoc := byDoc[doc := byDoc[doc][handle := list.(lenses := list.lenses[index := lens])]];
      changed := true;
    }

    method OnEdit(doc: string, edit: WidgetRange, text: string)
      modifies `byDoc
      ensures View() == EditedSpec(old(View()), doc, edit, text)
    {
      if doc !in byDoc {
        return;
      }
      var lists := CarryLists(byDoc[doc], edit, text);
      byDoc := byDoc[doc := lists];
    }

    static method CarryLists(was: map<int, LensList>, edit: WidgetRange, text: string)
        returns (lists: map<int, LensList>)
      ensures lists == CarriedLists(was, edit, text)
    {
      lists := was;
      var handles := HandlesOf(was);
      ghost var done: set<int> := {};
      for k := 0 to |handles|
        invariant forall j :: 0 <= j < k ==> handles[j] in done
        invariant CarriedSoFar(was, done, edit, text, lists)
      {
        var h := handles[k];
        var lenses := CarryLenses(was[h].lenses, edit, text);
        CarriedNext(was, done, h, edit, text, lists);
        lists := lists[h := was[h].(lenses := lenses)];
        done := done + {h};
      }
      DoneAll(was, handles, done);
      CarriedAll(was, done, edit, text, lists);
    }

    static method CarryLenses(was: seq<Lens>, edit: WidgetRange, text: string) returns (lenses: seq<Lens>)
      ensures lenses == CarriedEach(was, edit, text)
    {
      lenses := was;
      for i := 0 to |was|
        invariant |lenses| == |was|
        invariant forall j :: 0 <= j < i ==> lenses[j] == CarriedLens(was[j], edit, text)
        invariant forall j :: i <= j < |was| ==> lenses[j] == was[j]
      {
        var r := Carried(lenses[i].range, edit, text);
        match r {
          case Some(range) => lenses := lenses[i := lenses[i].(range := range)];
          case None => lenses := lenses[i := lenses[i].(command := None)];
        }
      }
    }

    method Decorations(doc: string, version: nat, lines: seq<string>, ids: DecorationIds) returns (out: seq<Decoration>)
      modifies `byId, ids
      ensures (View(), ids.View(), out) == Draw(old(View()), doc, version, lines, old(ids.View()))
    {
      byId := Without(byId, doc);
      var lists := if doc in byDoc then byDoc[doc] else map[];
      var live;
      ghost var asked;
      live, out, asked := DrawLists(lists, doc, version, lines, ids);
      ids.Keep(Space.CodeLens, doc, live);
      out := Arranged(out);
    }

    method DrawLists(lists: map<int, LensList>, doc: string, version: nat, lines: seq<string>, ids: DecorationIds)
      returns (live: set<nat>, out: seq<Decoration>, ghost asked: seq<nat>)
      modifies `byId, ids
      ensures DrawnSoFar(AllSlots(HandlesOf(lists), lists), doc, version, lines,
                         old(byId), old(ids.View()), byId, ids.View(), asked, live, out)
    {
      ghost var start, before := byId, ids.View();
      ghost var slots: seq<Slot> := [];
      live, out, asked := {}, [], [];
      var handles := HandlesOf(lists);
      for k := 0 to |handles|
        invariant slots == AllSlots(handles[..k], lists)
        invariant DrawnSoFar(slots, doc, version, lines, start, before, byId, ids.View(), asked, live, out)
      {
        NextProvider(handles, lists, k);
        var handle := handles[k];
        var lenses := lists[handle].lenses;
        live, out, asked := DrawList(handle, lenses, doc, version, lines, ids, live, out, asked, slots, start, before);
        slots := slots + ListSlots(handle, lenses, |lenses|);
      }
      assert handles[..|handles|] == handles;
    }

    method DrawList(handle: int, lenses: seq<Lens>, doc: string, version: nat, lines: seq<string>, ids: DecorationIds,
                    live0: set<nat>, out0: seq<Decoration>, ghost asked0: seq<nat>,
                    ghost slots0: seq<Slot>, ghost start: map<nat, Target>, ghost before: Table)
      returns (live: set<nat>, out: seq<Decoration>, ghost asked: seq<nat>)
      requires DrawnSoFar(slots0, doc, version, lines, start, before, byId, ids.View(), asked0, live0, out0)
      modifies `byId, ids
      ensures DrawnSoFar(slots0 + ListSlots(handle, lenses, |lenses|), doc, version, lines, start, before, byId,
          ids.View(), asked, live, out)
    {
      live, out, asked := live0, out0, asked0;
      ghost var slots := slots0;
      for i := 0 to |lenses|
        invariant slots == slots0 + ListSlots(handle, lenses, i)
        invariant DrawnSoFar(slots, doc, version, lines, start, before, byId, ids.View(), asked, live, out)
      {
        var lens := lenses[i];
        NextSlot(slots0, handle, lenses, i);
        if lens.command.Some? && lens.command.value.title != "" {
          var slot := Slot(handle, i, lens.key, lens.command.value, lens.range);
          live, out, asked := DrawLens(slot, doc, version, lines, ids, live, out, asked, slots, start, before);
          slots := slots + [slot];
        }
      }
    }

    method DrawLens(slot: Slot, doc: string, version: nat, lines: seq<string>, ids: DecorationIds,
                    live0: set<nat>, out0: seq<Decoration>, ghost asked0: seq<nat>,
                    ghost slots: seq<Slot>, ghost start: map<nat, Target>, ghost before: Table)
      returns (live: set<nat>, out: seq<Decoration>, ghost asked: seq<nat>)
      requires DrawnSoFar(slots, doc, version, lines, start, before, byId, ids.View(), asked0, live0, out0)
      modifies `byId, ids
      ensures DrawnSoFar(slots + [slot], doc, version, lines, start, before, byId, ids.View(), asked, live, out)
    {
      DrawnOneMore(slots, slot, doc, version, lines, start, before, byId, ids.View(), asked0, live0, out0);
      var id := ids.Id(Space.CodeLens, doc, slot.key);
      live := live0 + {id};
      byId := byId[id := Target(doc, slot.handle, slot.index)];
      asked := asked0 + [id];
      out := out0 + [Drawn(slot, id, version, lines)];
    }

    method RemoveProvider(handle: int) returns (released: set<(string, int)>)
      modifies `byDoc
      ensures View() == ProviderRemoved(old(View()), handle)
      ensures forall doc, cache :: (doc, cache) in released <==>
                doc in old(byDoc) && handle in old(byDoc)[doc] && old(byDoc)[doc][handle].cacheId == Some(cache)
    {
      released := set doc | doc in byDoc && handle in byDoc[doc] && byDoc[doc][handle].cacheId.Some? ::
        (doc, byDoc[doc][handle].cacheId.value);
      byDoc := map doc | doc in byDoc :: byDoc[doc] - {handle};
    }

    method Close(doc: string) returns (released: set<(int, int)>)
      modifies `byDoc, `byId
      ensures View() == ClosedSpec(old(View()), doc)
      ensures forall h, cache :: (h, cache) in released <==>
                exists k :: doc in old(byDoc) && k in old(byDoc)[doc] && old(byDoc)[doc][k].handle == h
                    && old(byDoc)[doc][k].cacheId == Some(cache)
    {
      byId := Without(byId, doc);
      released := {};
      if doc in byDoc {
        var lists := byDoc[doc];
        released := set k | k in lists && lists[k].cacheId.Some? :: (lists[k].handle, lists[k].cacheId.value);
      }
      byDoc := byDoc - {doc};
    }
  }
}
