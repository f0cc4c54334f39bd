/** Which lenses are drawn and where, and which lists are current, over whole runs
    (`ember/editor/src/codelens.rs`). */
module LensRuns {
  import opened Wrappers
  import opened Coords
  import opened Ordering
  import opened Decorations
  import opened Ids
  import opened CodeLens
  import Keys

  // ---- every titled lens once, where it is ---------------------------------------------------

  /** The lens a target leads to. */
  function LensOf(c: Lenses, t: Target): Option<Lens> {
    if t.doc in c.byDoc && t.handle in c.byDoc[t.doc] && t.index < |c.byDoc[t.doc][t.handle].lenses|
    then Some(c.byDoc[t.doc][t.handle].lenses[t.index])
    else None
  }

  /** A lens with a command that has a title. */
  predicate HasTitle(lens: Lens) {
    lens.command.Some? && lens.command.value.title != ""
  }

  /** `x` is a titled lens of the document: its title, the version asked for, at its range if that is one of the
      document and else at the range clamped to it. */
  ghost predicate Shows(c: Lenses, doc: string, version: nat, lines: seq<string>, x: Decoration) {
    && x.id in c.byId && c.byId[x.id].doc == doc
    && var lens := LensOf(c, c.byId[x.id]);
       && lens.Some? && HasTitle(lens.value)
       && x == Decoration(x.id, version, LensTitle, None, 0, x.range, lens.value.command.value.title)
       && (ValidSpan(lines, lens.value.range) ==> x.range == lens.value.range)
       && (lines != [] ==> ValidSpan(lines, x.range) && RangeClamped(lines, lens.value.range, x.range))
  }

  /** Both ends of `to` are those of `from`, clamped to the document, in order. */
  ghost predicate RangeClamped(lines: seq<string>, from: WidgetRange, to: WidgetRange)
    requires lines != []
  {
    || (ClampedExactly(lines, from.start, to.start) && ClampedExactly(lines, from.end, to.end))
    || (ClampedExactly(lines, from.start, to.end) && ClampedExactly(lines, from.end, to.start))
  }

  /** Is the titled lens of this target drawn? */
  predicate DrawnAt(c: Lenses, out: seq<Decoration>, t: Target) {
    exists i :: 0 <= i < |out| && out[i].id in c.byId && c.byId[out[i].id] == t
  }

  /** The titled lenses of the document, each once. */
  ghost predicate ShowsEach(c: Lenses, doc: string, version: nat, lines: seq<string>, out: seq<Decoration>) {
    && (forall i :: 0 <= i < |out| ==> Shows(c, doc, version, lines, out[i]))
    && (forall i, j :: 0 <= i < j < |out| ==> c.byId[out[i].id] != c.byId[out[j].id])
    && (forall t: Target :: t.doc == doc && LensOf(c, t).Some? && HasTitle(LensOf(c, t).value) ==> DrawnAt(c, out, t))
  }

  /** A slot is a titled lens of its list. */
  predicate SlotIs(lists: map<int, LensList>, s: Slot) {
    && s.handle in lists && s.index < |lists[s.handle].lenses|
    && var lens := lists[s.handle].lenses[s.index];
       Titled(lens) && lens.command.value == s.command && lens.range == s.range
  }

  predicate SlotFor(slots: seq<Slot>, handle: int, index: nat) {
    exists i :: 0 <= i < |slots| && slots[i].handle == handle && slots[i].index == index
  }

  /** Exactly the titled ones of the first `n` lenses, in order. */
  ghost predicate ListExact(handle: int, lenses: seq<Lens>, n: nat, r: seq<Slot>)
    requires n <= |lenses|
  {
    && (forall i :: 0 <= i < |r| ==> r[i].handle == handle && r[i].index < n && SlotOf(lenses, r[i]))
    && (forall i, j :: 0 <= i < j < |r| ==> r[i].index < r[j].index)
    && (forall k :: 0 <= k < n && Titled(lenses[k]) ==> SlotFor(r, handle, k))
  }

  predicate SlotOf(lenses: seq<Lens>, s: Slot) {
    && s.index < |lenses| && Titled(lenses[s.index])
    && lenses[s.index].command.value == s.command && lenses[s.index].range == s.range
  }

  lemma SlotStays(r: seq<Slot>, s: Slot, handle: int, k: nat)
    ensures SlotFor(r, handle, k) ==> SlotFor(r + [s], handle, k)
    ensures s.handle == handle && s.index == k ==> SlotFor(r + [s], handle, k)
  {
    if SlotFor(r, handle, k) {
      var i :| 0 <= i < |r| && r[i].handle == handle && r[i].index == k;
      assert (r + [s])[i] == r[i];
    }
    assert (r + [s])[|r|] == s;
  }

  lemma OneMoreExact(handle: int, lenses: seq<Lens>, n: nat, r: seq<Slot>, s: Slot)
    requires n < |lenses| && ListExact(handle, lenses, n, r)
    requires s.handle == handle && s.index == n && SlotOf(lenses, s)
    ensures ListExact(handle, lenses, n + 1, r + [s])
  {
    forall k | 0 <= k < n + 1 && Titled(lenses[k])
      ensures SlotFor(r + [s], handle, k)
    {
      SlotStays(r, s, handle, k);
    }
  }

  lemma {:induction false} ListSlotsExact(handle: int, lenses: seq<Lens>, n: nat)
    requires n <= |lenses|
    ensures ListExact(handle, lenses, n, ListSlots(handle, lenses, n))
  {
    if n == 0 {
    } else {
      ListSlotsExact(handle, lenses, n - 1);
      var lens := lenses[n - 1];
      if Titled(lens) {
        OneMoreExact(handle, lenses, n - 1, ListSlots(handle, lenses, n - 1),
            Slot(handle, n - 1, lens.key, lens.command.value, lens.range));
      } else {
        SameExact(handle, lenses, n - 1, ListSlots(handle, lenses, n - 1));
        assert ListSlots(handle, lenses, n) == ListSlots(handle, lenses, n - 1);
      }
    }
  }

  lemma SameExact(handle: int, lenses: seq<Lens>, n: nat, r: seq<Slot>)
    requires n < |lenses| && ListExact(handle, lenses, n, r) && !Titled(lenses[n])
    ensures ListExact(handle, lenses, n + 1, r)
  {
  }

  /** The slots of some providers: each a titled lens of one of them, no two the same, and none left out. */
  ghost predicate SlotsExact(handles: seq<int>, lists: map<int, LensList>, slots: seq<Slot>)
    requires Listed(handles, lists)
  {
    && (forall i :: 0 <= i < |slots| ==> SlotIs(lists, slots[i]) && slots[i].handle in handles)
    && (forall i, j :: 0 <= i < j < |slots| ==> slots[i].handle != slots[j].handle || slots[i].index != slots[j].index)
    && (forall h, k :: h in handles && 0 <= k < |lists[h].lenses| && Titled(lists[h].lenses[k]) ==>
         SlotFor(slots, h, k))
  }

  lemma SlotsExactJoin(handles: seq<int>, h: int, lists: map<int, LensList>, a: seq<Slot>, b: seq<Slot>)
    requires Listed(handles, lists) && h in lists && h !in handles && SlotsExact(handles, lists, a)
    requires SlotsExact([h], lists, b)
    ensures SlotsExact(handles + [h], lists, a + b)
  {
    var slots := a + b;
    forall g, k | g in handles + [h] && 0 <= k < |lists[g].lenses| && Titled(lists[g].lenses[k])
      ensures SlotFor(slots, g, k)
    {
      if g in handles {
        var i :| 0 <= i < |a| && a[i].handle == g && a[i].index == k;
        assert slots[i] == a[i];
      } else {
        assert g in [h];
        var i :| 0 <= i < |b| && b[i].handle == g && b[i].index == k;
        assert slots[|a| + i] == b[i];
      }
    }
  }

  lemma OneProvider(h: int, lists: map<int, LensList>)
    requires h in lists
    ensures SlotsExact([h], lists, ListSlots(h, lists[h].lenses, |lists[h].lenses|))
  {
    ListSlotsExact(h, lists[h].lenses, |lists[h].lenses|);
  }

  lemma {:induction false} AllSlotsExact(handles: seq<int>, lists: map<int, LensList>)
    requires Listed(handles, lists) && Rising(handles)
    ensures SlotsExact(handles, lists, AllSlots(handles, lists))
  {
    if handles == [] {
    } else {
      var n := |handles| - 1;
      var h := handles[n];
      AllSlotsExact(handles[..n], lists);
      OneProvider(h, lists);
      assert h !in handles[..n];
      SlotsExactJoin(handles[..n], h, lists, AllSlots(handles[..n], lists),
          ListSlots(h, lists[h].lenses, |lists[h].lenses|));
      assert handles == handles[..n] + [h];
    }
  }

  lemma SlotsAreExact(lists: map<int, LensList>)
    ensures SlotsExact(HandlesOf(lists), lists, AllSlots(HandlesOf(lists), lists))
    ensures forall h :: h in lists ==> h in HandlesOf(lists)
  {
    AllSlotsExact(HandlesOf(lists), lists);
    forall h | h in lists
      ensures h in HandlesOf(lists)
    {
      HandlesOfAll(lists, h);
    }
  }

  /** The decorations of slots under ids of their own, before they are put in order. */
  lemma DrawnShows(c: Lenses, doc: string, slots: seq<Slot>, ids: seq<nat>, i: nat, version: nat, lines: seq<string>)
    requires i < |slots| == |ids| && SlotIs(ListsOf(c, doc), slots[i])
    requires ids[i] in c.byId && c.byId[ids[i]] == Target(doc, slots[i].handle, slots[i].index)
    ensures Shows(c, doc, version, lines, DrawnEach(slots, ids, version, lines)[i])
  {
    if lines != [] {
      ClampedValid(lines, slots[i].range);
      ClampedIs(lines, slots[i].range);
    } else {
      NoPlaces(lines, slots[i].range);
    }
  }

  lemma NoPlaces(lines: seq<string>, r: WidgetRange)
    requires lines == []
    ensures !ValidSpan(lines, r)
  {
  }

  lemma ClampedIs(lines: seq<string>, r: WidgetRange)
    requires lines != []
    ensures RangeClamped(lines, r, Clamped(lines, r))
  {
    ClampedPosValid(lines, r.start);
    ClampedPosValid(lines, r.end);
  }

  /** Drawn lenses, put in order, are still each drawn once. */
  lemma EachStillShown(c: Lenses, doc: string, version: nat, lines: seq<string>, ds: seq<Decoration>)
    requires ShowsEach(c, doc, version, lines, ds) && DistinctIds(ds)
    ensures ShowsEach(c, doc, version, lines, Arranged(ds))
  {
    ArrangedSame(ds);
    ArrangedDistinct(ds);
    var out := Arranged(ds);
    forall i | 0 <= i < |out|
      ensures out[i] in ds
    {
      assert out[i] in multiset(out);
    }
    forall i, j | 0 <= i < j < |out|
      ensures c.byId[out[i].id] != c.byId[out[j].id]
    {
      var k :| 0 <= k < |ds| && ds[k] == out[i];
      var l :| 0 <= l < |ds| && ds[l] == out[j];
      assert out[i].id != out[j].id && k != l;
    }
    forall t: Target | DrawnAt(c, ds, t)
      ensures DrawnAt(c, out, t)
    {
      StillDrawn(c, ds, out, t);
    }
  }

  lemma StillDrawn(c: Lenses, ds: seq<Decoration>, out: seq<Decoration>, t: Target)
    requires multiset(out) == multiset(ds) && DrawnAt(c, ds, t)
    ensures DrawnAt(c, out, t)
  {
    var k :| 0 <= k < |ds| && ds[k].id in c.byId && c.byId[ds[k].id] == t;
    assert ds[k] in multiset(out);
    var i :| 0 <= i < |out| && out[i] == ds[k];
  }

  lemma SlotsShow(c: Lenses, doc: string, slots: seq<Slot>, ids: seq<nat>, version: nat, lines: seq<string>)
    requires var lists := ListsOf(c, doc); slots == AllSlots(HandlesOf(lists), lists)
    requires IdsOwn(slots, ids)
    requires forall i :: 0 <= i < |ids| ==>
               ids[i] in c.byId && c.byId[ids[i]] == Target(doc, slots[i].handle, slots[i].index)
    ensures ShowsEach(c, doc, version, lines, DrawnEach(slots, ids, version, lines))
  {
    var lists, out := ListsOf(c, doc), DrawnEach(slots, ids, version, lines);
    SlotsAreExact(lists);
    forall i | 0 <= i < |out|
      ensures Shows(c, doc, version, lines, out[i])
    {
      DrawnShows(c, doc, slots, ids, i, version, lines);
    }
    forall t: Target | t.doc == doc && LensOf(c, t).Some? && HasTitle(LensOf(c, t).value)
      ensures DrawnAt(c, out, t)
    {
      assert SlotFor(slots, t.handle, t.index);
      var i :| 0 <= i < |slots| && slots[i].handle == t.handle && slots[i].index == t.index;
      assert out[i].id == ids[i];
    }
  }

  /** While there is room, drawing a document shows each of its titled lenses exactly once: its title, the version
      asked for, at its own range if the document has it. */
  lemma EveryLensShown(c: Lenses, doc: string, version: nat, lines: seq<string>, t: Table)
    requires Sound(c) && Valid(t) && Roomy(Draw(c, doc, version, lines, t).1)
    ensures var r := Draw(c, doc, version, lines, t); ShowsEach(r.0, doc, version, lines, r.2)
  {
    var slots := Slots(c, doc);
    var ids := AskedEach(t, Space.CodeLens, doc, KeysOf(slots)).1;
    SlotsAreSound(c, doc);
    AskedOwn(ListsOf(c, doc), slots, doc, t);
    FiledShows(c, doc, ids, version, lines);
  }

  lemma FiledShows(c: Lenses, doc: string, ids: seq<nat>, version: nat, lines: seq<string>)
    requires IdsOwn(Slots(c, doc), ids)
    ensures ShowsEach(c.(byId := Filed(Without(c.byId, doc), doc, Slots(c, doc), ids)), doc, version, lines,
                      Arranged(DrawnEach(Slots(c, doc), ids, version, lines)))
  {
    var slots := Slots(c, doc);
    FiledEach(Without(c.byId, doc), doc, slots, ids);
    var d := c.(byId := Filed(Without(c.byId, doc), doc, slots, ids));
    assert ListsOf(d, doc) == ListsOf(c, doc);
    SlotsShow(d, doc, slots, ids, version, lines);
    EachStillShown(d, doc, version, lines, DrawnEach(slots, ids, version, lines));
  }

  /** The same after any run with fewer than 2^56 ids given out. */
  lemma LensesShownAfterAnyRun(events: seq<Event>, doc: string, version: nat, lines: seq<string>)
    requires Roomy(Draw(Ran(events).c, doc, version, lines, Ran(events).t).1)
    ensures var r := Draw(Ran(events).c, doc, version, lines, Ran(events).t);
            ShowsEach(r.0, doc, version, lines, r.2)
  {
    var s := Ran(events);
    DrawnNext(s.c, doc, version, lines, s.t);
    RanSound(events);
    EveryLensShown(s.c, doc, version, lines, s.t);
  }

  // ---- what a list holds ---------------------------------------------------------------------

  /** The lenses of a reply whose range can be read. */
  function Readable(dtos: seq<LensDto>): (r: seq<LensDto>)
    ensures forall d :: d in r ==> d.range.Some?
  {
    if dtos == [] then []
    else
      var n := |dtos| - 1;
      Readable(dtos[..n]) + if dtos[n].range.Some? then [dtos[n]] else []
  }

  /** A list holds the readable lenses of its reply, in order, each as received. */
  lemma {:induction false} TakenExactly(handle: int, dtos: seq<LensDto>)
    ensures var r, d := Taken(handle, dtos), Readable(dtos);
            && |r| == |d|
            && forall i :: 0 <= i < |r| ==>
                 r[i].dto == d[i].dto && r[i].range == FromExthost(d[i].range.value) && r[i].command == d[i].command
  {
    if dtos == [] {
    } else {
      TakenExactly(handle, dtos[..|dtos| - 1]);
    }
  }

  /** Is `i` one of the lenses to resolve, with what was received of it? */
  predicate AskedAbout(toResolve: seq<(nat, Json)>, i: nat, dto: Json) {
    exists j :: 0 <= j < |toResolve| && toResolve[j] == (i, dto)
  }

  ghost predicate ResolvesExactly(lenses: seq<Lens>, n: nat, r: seq<(nat, Json)>)
    requires n <= |lenses|
  {
    && (forall j :: 0 <= j < |r| ==> r[j].0 < n && lenses[r[j].0].command.None? && r[j].1 == lenses[r[j].0].dto)
    && (forall i, j :: 0 <= i < j < |r| ==> r[i].0 < r[j].0)
    && (forall i :: 0 <= i < n && lenses[i].command.None? ==> AskedAbout(r, i, lenses[i].dto))
  }

  lemma {:induction false} UnresolvedExactly(lenses: seq<Lens>)
    ensures ResolvesExactly(lenses, |lenses|, Unresolved(lenses))
  {
    if lenses == [] {
    } else {
      var n := |lenses| - 1;
      UnresolvedExactly(lenses[..n]);
      UnresolvedMore(lenses, n, Unresolved(lenses[..n]));
    }
  }

  lemma UnresolvedMore(lenses: seq<Lens>, n: nat, r: seq<(nat, Json)>)
    requires |lenses| == n + 1 && ResolvesExactly(lenses[..n], n, r)
    ensures ResolvesExactly(lenses, n + 1, r + if lenses[n].command.None? then [(n, lenses[n].dto)] else [])
  {
    var r' := r + if lenses[n].command.None? then [(n, lenses[n].dto)] else [];
    forall i | 0 <= i < n + 1 && lenses[i].command.None?
      ensures AskedAbout(r', i, lenses[i].dto)
    {
      if i == n {
        assert r'[|r|] == (n, lenses[n].dto);
      } else {
        assert lenses[..n][i] == lenses[i];
        var j :| 0 <= j < |r| && r[j] == (i, lenses[i].dto);
        assert r'[j] == r[j];
      }
    }
  }

  /** Storing a reply puts its readable lenses under its provider, numbered anew, asks for the first `cap` of those
      without a command, releases the list it replaced, and leaves every other list and id alone. */
  lemma SetExactly(c: Lenses, doc: string, handle: int, reply: Reply, cap: nat)
    ensures var r := SetSpec(c, doc, handle, reply, cap); var list := LensList(handle, reply.cacheId, c.serial + 1,
                Taken(handle, reply.lenses));
            && ListAt(r.0, doc, handle) == Some(list)
            && (forall d, h :: d != doc || h != handle ==> ListAt(r.0, d, h) == ListAt(c, d, h))
            && r.0.byId == c.byId && r.0.serial == c.serial + 1
            && r.1.serial == list.serial
            && r.1.release
                 == (if ListAt(c, doc, handle).Some? then ListAt(c, doc, handle).value.cacheId else None)
            && |r.1.toResolve| <= cap
            && r.1.toResolve <= Unresolved(list.lenses)
            && (|r.1.toResolve| < cap ==> r.1.toResolve == Unresolved(list.lenses))
  {
    FirstOfIs(Unresolved(Taken(handle, reply.lenses)), cap);
    SetLists(c, doc, handle, reply, cap);
  }

  lemma FirstOfIs<T>(s: seq<T>, n: nat)
    ensures var r := FirstOf(s, n); |r| <= n && r <= s && (|r| < n ==> r == s)
  {
  }

  lemma SetLists(c: Lenses, doc: string, handle: int, reply: Reply, cap: nat)
    ensures var d := SetSpec(c, doc, handle, reply, cap).0;
            && ListAt(d, doc, handle)
                 == Some(LensList(handle, reply.cacheId, c.serial + 1, Taken(handle, reply.lenses)))
            && (forall e, h :: e != doc || h != handle ==> ListAt(d, e, h) == ListAt(c, e, h))
  {
  }

  function ListAt(c: Lenses, doc: string, handle: int): Option<LensList> {
    if doc in c.byDoc && handle in c.byDoc[doc] then Some(c.byDoc[doc][handle]) else None
  }

  /** An edit carries every lens of its document, and those alone: one whose non-empty range it wholly replaces loses
      its command, any other keeps it and stands at the carried offsets. */
  lemma EditCarriesEach(c: Lenses, ls: seq<string>, eol: string, edit: WidgetRange, text: string, doc: string,
                        t: Target)
    requires LensOf(c, t).Some? && ValidSpan(ls, LensOf(c, t).value.range) && ValidSpan(ls, edit) && eol != ""
    ensures var was, now := LensOf(c, t).value, LensOf(EditedSpec(c, doc, edit, text), t);
            && now.Some?
            && if t.doc != doc then now.value == was
               else if !was.range.IsEmpty() && edit.start.NotAfter(was.range.start) && was.range.end.NotAfter(edit.end)
               then now.value == was.(command := None)
               else
                 && now.value == was.(range := now.value.range)
                 && Refines(ls, eol, was.range, edit, text, Some(now.value.range))
  {
    LensCarriedExactly(ls, eol, LensOf(c, t).value, edit, text);
  }

  /** The number a decimal text spells. */
  function Spelled(s: string): int {
    if s == "" then 0 else Spelled(s[..|s| - 1]) * 10 + s[|s| - 1] as int - '0' as int
  }

  /** `s` is the decimal text of `n`, without a leading zero. */
  predicate Spells(s: string, n: nat) {
    && s != "" && (forall i :: 0 <= i < |s| ==> Keys.IsDigit(s[i]))
    && Spelled(s) == n && (|s| > 1 ==> s[0] != '0')
  }

  /** A key names the provider, the line and the number on it, each in decimal, between bars. */
  lemma KeyText(handle: int, line: nat, n: nat)
    ensures var h, l, m := Keys.Decimal(handle), Keys.Digits(line), Keys.Digits(n);
            && LensKey(handle, line, n) == h + "|" + (l + "|" + m)
            && Spells(l, line) && Spells(m, n)
            && (handle >= 0 ==> Spells(h, handle)) && (handle < 0 ==> h[0] == '-' && Spells(h[1..], -handle))
  {
    DigitsSpell(line);
    DigitsSpell(n);
    DigitsSpell(if handle < 0 then -handle else handle);
  }

  lemma {:induction false} DigitsSpell(n: nat)
    ensures Spells(Keys.Digits(n), n) && (n > 0 ==> Keys.Digits(n)[0] != '0')
  {
    Keys.DigitsAreDigits(n);
    var c := Keys.Digit(n % 10);
    DigitValue(n % 10);
    if n < 10 {
      assert Keys.Digits(n) == [c];
      OneMoreDigit("", c);
    } else {
      DigitsSpell(n / 10);
      OneMoreDigit(Keys.Digits(n / 10), c);
    }
  }

  lemma DigitValue(d: nat)
    requires d < 10
    ensures Keys.Digit(d) as int - '0' as int == d
  {
  }

  lemma OneMoreDigit(s: string, c: char)
    ensures Spelled(s + [c]) == Spelled(s) * 10 + c as int - '0' as int
  {
    assert (s + [c])[..|s|] == s;
  }

  // ---- a reply reaches the lens it was asked for ---------------------------------------------

  /** Lists are numbered from 1 in the order they came, no two alike. */
  ghost predicate Numbered(c: Lenses) {
    && (forall d, h :: ListAt(c, d, h).Some? ==> 1 <= ListAt(c, d, h).value.serial <= c.serial)
    && (forall d, h, e, g :: SameNumber(ListAt(c, d, h), ListAt(c, e, g)) ==> d == e && h == g)
  }

  predicate SameNumber(a: Option<LensList>, b: Option<LensList>) {
    a.Some? && b.Some? && a.value.serial == b.value.serial
  }

  /** The same list: the lenses may have other ranges and commands, but each is the one received in its place. */
  predicate SameList(a: LensList, b: LensList) {
    && a.handle == b.handle && a.cacheId == b.cacheId && a.serial == b.serial && |a.lenses| == |b.lenses|
    && forall i :: 0 <= i < |a.lenses| ==> a.lenses[i].dto == b.lenses[i].dto && a.lenses[i].key == b.lenses[i].key
  }

  /** Every list of `b` is one of `a`, in the same place. */
  ghost predicate NoNewList(a: Lenses, b: Lenses) {
    && b.serial == a.serial
    && forall d, h :: ListAt(b, d, h).Some? ==>
         ListAt(a, d, h).Some? && SameList(ListAt(b, d, h).value, ListAt(a, d, h).value)
  }

  lemma HappenedLists(s: Shared, e: Event)
    requires !e.ListSet?
    ensures NoNewList(s.c, Happened(s, e).c)
  {
    match e {
      case LensResolved(doc, handle, serial, index, command) =>
      case DocEdited(doc, edit, text) => EditedLists(s.c, doc, edit, text);
      case _ =>
    }
  }

  lemma EditedLists(c: Lenses, doc: string, edit: WidgetRange, text: string)
    ensures NoNewList(c, EditedSpec(c, doc, edit, text))
  {
  }

  lemma HappenedNumbered(s: Shared, e: Event)
    requires Numbered(s.c)
    ensures Numbered(Happened(s, e).c)
  {
    if e.ListSet? {
      SetExactly(s.c, e.doc, e.handle, e.reply, e.cap);
    } else {
      HappenedLists(s, e);
    }
  }

  lemma {:induction false} RanNumbered(events: seq<Event>)
    ensures Numbered(Ran(events).c)
  {
    if events == [] {
    } else {
      var n := |events| - 1;
      RanNumbered(events[..n]);
      HappenedNumbered(Ran(events[..n]), events[n]);
    }
  }

  /** The list the `i`-th event of a run stored. */
  function StoredBy(events: seq<Event>, i: nat): LensList
    requires i < |events| && events[i].ListSet?
  {
    var e := events[i];
    LensList(e.handle, e.reply.cacheId, Ran(events[..i]).c.serial + 1, Taken(e.handle, e.reply.lenses))
  }

  /** A list numbered as the `i`-th event's is that list, where that event put it. */
  ghost predicate OnlyThere(c: Lenses, e: Event, list: LensList)
    requires e.ListSet?
  {
    && list.serial <= c.serial
    && forall d, h :: ListAt(c, d, h).Some? && ListAt(c, d, h).value.serial == list.serial ==>
         d == e.doc && h == e.handle && SameList(ListAt(c, d, h).value, list)
  }

  lemma {:induction false} StaysThere(events: seq<Event>, i: nat, n: nat)
    requires i < n <= |events| && events[i].ListSet?
    ensures OnlyThere(Ran(events[..n]).c, events[i], StoredBy(events, i))
    decreases n
  {
    var s, e := Ran(events[..n - 1]), events[n - 1];
    assert events[..n][..n - 1] == events[..n - 1];
    if n == i + 1 {
      RanNumbered(events[..n - 1]);
      StoredThere(s.c, e);
    } else {
      StaysThere(events, i, n - 1);
      StaysOneMore(s, e, events[i], StoredBy(events, i));
    }
  }

  lemma StoredThere(c: Lenses, e: Event)
    requires e.ListSet? && Numbered(c)
    ensures OnlyThere(SetSpec(c, e.doc, e.handle, e.reply, e.cap).0, e,
                      LensList(e.handle, e.reply.cacheId, c.serial + 1, Taken(e.handle, e.reply.lenses)))
  {
    SetExactly(c, e.doc, e.handle, e.reply, e.cap);
  }

  lemma StaysOneMore(s: Shared, e: Event, set0: Event, list: LensList)
    requires set0.ListSet? && OnlyThere(s.c, set0, list)
    ensures OnlyThere(Happened(s, e).c, set0, list)
  {
    if e.ListSet? {
      SetExactly(s.c, e.doc, e.handle, e.reply, e.cap);
    } else {
      HappenedLists(s, e);
    }
  }

  /** Is `list`, stored by `e`, still the current one of its document and provider, these? */
  predicate StillCurrent(c: Lenses, e: Event, list: LensList, doc: string, handle: int)
    requires e.ListSet?
  {
    doc == e.doc && handle == e.handle && SameNumber(ListAt(c, doc, handle), Some(list))
  }

  /** Over every run, a reply that names the number given to a list and one of its lenses is taken only while that
      list is the current one of its document and provider, and changes the command of that very lens. */
  lemma ReplyMeetsItsLens(events: seq<Event>, i: nat, doc: string, handle: int, index: nat, command: Option<Command>)
    requires i < |events| && events[i].ListSet?
    ensures var c, list := Ran(events).c, StoredBy(events, i);
            var r := ResolvedSpec(c, doc, handle, list.serial, index, command);
            && (r.1 <==> command.Some? && StillCurrent(c, events[i], list, doc, handle) && index < |list.lenses|)
            && (!r.1 ==> r.0 == c)
            && (r.1 ==>
                  && ChangedLens(c, r.0, Target(doc, handle, index), command)
                  && LensOf(c, Target(doc, handle, index)).value.dto == list.lenses[index].dto)
  {
    assert events[..|events|] == events;
    StaysThere(events, i, |events|);
    ReplyTaken(Ran(events).c, events[i], StoredBy(events, i), doc, handle, index, command);
  }

  lemma ReplyTaken(c: Lenses, e: Event, list: LensList, doc: string, handle: int, index: nat, command: Option<Command>)
    requires e.ListSet? && OnlyThere(c, e, list)
    ensures var r := ResolvedSpec(c, doc, handle, list.serial, index, command);
            && (r.1 <==> command.Some? && StillCurrent(c, e, list, doc, handle) && index < |list.lenses|)
            && (!r.1 ==> r.0 == c)
            && (r.1 ==>
                  && ChangedLens(c, r.0, Target(doc, handle, index), command)
                  && LensOf(c, Target(doc, handle, index)).value.dto == list.lenses[index].dto)
  {
    if Current(c, doc, handle, list.serial, index) {
      assert ListAt(c, doc, handle) == Some(c.byDoc[doc][handle]);
    }
  }

  /** The lens has another command; nothing else differs. */
  ghost predicate ChangedLens(a: Lenses, b: Lenses, t: Target, command: Option<Command>) {
    && LensOf(a, t).Some? && LensOf(b, t) == Some(LensOf(a, t).value.(command := command))
    && (forall u :: u != t ==> LensOf(b, u) == LensOf(a, u))
    && b.byId == a.byId && b.serial == a.serial
    && forall d, h :: ListAt(a, d, h).Some? <==> ListAt(b, d, h).Some?
  }

  // ---- a list is released when it goes -------------------------------------------------------

  /** What an event asks the extension host to release: document, provider and cache id. */
  function ReleasedBy(c: Lenses, e: Event): set<(string, int, int)> {
    match e
    case ListSet(doc, handle, reply, cap) =>
      var r := SetSpec(c, doc, handle, reply, cap).1.release;
      if r.Some? then {(doc, handle, r.value)} else {}
    case DocClosed(doc) =>
      var lists := ListsOf(c, doc);
      set k | k in lists && lists[k].cacheId.Some? :: (doc, lists[k].handle, lists[k].cacheId.value)
    case ProviderGone(handle) =>
      set doc | doc in c.byDoc && handle in c.byDoc[doc] && c.byDoc[doc][handle].cacheId.Some? ::
        (doc, handle, c.byDoc[doc][handle].cacheId.value)
    case _ => {}
  }

  /** Is the list with this cache id gone with the event? */
  predicate Goes(s: Shared, e: Event, doc: string, handle: int, cache: int) {
    var was, now := ListAt(s.c, doc, handle), ListAt(Happened(s, e).c, doc, handle);
    was.Some? && was.value.cacheId == Some(cache) && !SameNumber(was, now)
  }

  /** Over every run, a list the extension host keeps is released exactly when it goes: when it is replaced, or its
      document is closed, or its provider is gone. */
  lemma ReleasedWhenGone(events: seq<Event>, e: Event, doc: string, handle: int, cache: int)
    requires Roomy(Ran(events).t)
    ensures (doc, handle, cache) in ReleasedBy(Ran(events).c, e) <==> Goes(Ran(events), e, doc, handle, cache)
  {
    RanNumbered(events);
    RanSound(events);
    var s := Ran(events);
    match e {
      case ListSet(d, h, reply, cap) => SetExactly(s.c, d, h, reply, cap);
      case DocClosed(d) => ClosedReleases(s.c, d, doc, handle, cache);
      case ProviderGone(h) =>
      case LensesDrawn(_, _, _) =>
      case _ => StaysStored(s, e, doc, handle);
    }
  }

  lemma ClosedReleases(c: Lenses, d: string, doc: string, handle: int, cache: int)
    requires Sound(c)
    ensures (doc, handle, cache) in ReleasedBy(c, DocClosed(d))
       <==> doc == d && ListAt(c, doc, handle).Some? && ListAt(c, doc, handle).value.cacheId == Some(cache)
  {
  }

  lemma StaysStored(s: Shared, e: Event, doc: string, handle: int)
    requires e.LensResolved? || e.DocEdited? || e.OtherIds?
    ensures var was, now := ListAt(s.c, doc, handle), ListAt(Happened(s, e).c, doc, handle);
            was.Some? ==> now.Some? && now.value.serial == was.value.serial
  {
  }

  // ---- one document at a time ----------------------------------------------------------------

  /** Every id filed was given out, and none of another document's keys has it. */
  ghost predicate FiledSafely(s: Shared) {
    forall id :: id in s.c.byId ==>
      && id % COUNTERS <= s.t.next
      && forall k :: k in s.t.byKey && s.t.byKey[k] == id ==> k.doc == s.c.byId[id].doc
  }

  lemma HappenedFiled(s: Shared, e: Event)
    requires FiledSafely(s) && Valid(s.t) && Roomy(Happened(s, e).t)
    ensures FiledSafely(Happened(s, e))
  {
    match e {
      case LensesDrawn(doc, version, lines) =>
        HappenedDrawn(s, doc, version, lines);
        DrawnFiled(s, doc);
      case OtherIds(op) => OtherIdsFiled(s, op);
      case _ =>
    }
  }

  lemma OtherIdsFiled(s: Shared, op: Op)
    requires FiledSafely(s) && Valid(s.t) && Roomy(Done(s.t, op))
    ensures FiledSafely(s.(t := Done(s.t, op)))
  {
    if op.Ask? {
      AskedFiled(s, op.key);
    }
  }

  lemma AskedFiled(s: Shared, k: Key)
    requires FiledSafely(s) && Valid(s.t) && Roomy(Asked(s.t, k).0)
    ensures FiledSafely(s.(t := Asked(s.t, k).0))
  {
    if k !in s.t.byKey {
      FreshCounter(k.space, s.t.next + 1);
    }
  }

  /** Ids asked for one document after another's were filed: the same as asking, then filing each. */
  lemma {:induction false} AskedEachFiled(s: Shared, doc: string, names: seq<string>)
    requires FiledSafely(s) && Valid(s.t) && Roomy(AskedEach(s.t, Space.CodeLens, doc, names).0)
    ensures var r := AskedEach(s.t, Space.CodeLens, doc, names); Valid(r.0) && FiledSafely(s.(t := r.0))
    ensures var r := AskedEach(s.t, Space.CodeLens, doc, names);
            forall id :: id in r.1 && id in s.c.byId ==> s.c.byId[id].doc == doc
    ensures var r := AskedEach(s.t, Space.CodeLens, doc, names); forall id :: id in r.1 ==> id % COUNTERS <= r.0.next
  {
    AskedEachHeld(s.t, Space.CodeLens, doc, names);
    var r := AskedEach(s.t, Space.CodeLens, doc, names);
    if names == [] {
    } else {
      var n := |names| - 1;
      var k := Key(Space.CodeLens, doc, names[n]);
      var before := AskedEach(s.t, Space.CodeLens, doc, names[..n]);
      RoomyBefore(before.0, k);
      AskedEachFiled(s, doc, names[..n]);
      AskedFiled(s.(t := before.0), k);
      AskedGrows(before.0, k);
    }
  }

  lemma {:induction false} FiledIs(byId: map<nat, Target>, doc: string, slots: seq<Slot>, ids: seq<nat>)
    requires |ids| == |slots|
    ensures var r := Filed(byId, doc, slots, ids);
            forall id :: id in r <==> id in byId || id in ids
    ensures var r := Filed(byId, doc, slots, ids);
            forall id :: id in r ==> if id in ids then r[id].doc == doc else id in byId && r[id] == byId[id]
  {
    if slots == [] {
    } else {
      var n := |slots| - 1;
      FiledIs(byId, doc, slots[..n], ids[..n]);
      assert ids == ids[..n] + [ids[n]];
    }
  }

  /** Only the document's own keys have the ids asked for it. */
  lemma OwnKeys(t: Table, doc: string, names: seq<string>, id: nat, k: Key)
    requires Valid(t) && Roomy(AskedEach(t, Space.CodeLens, doc, names).0)
    requires var r := AskedEach(t, Space.CodeLens, doc, names); id in r.1 && k in r.0.byKey && r.0.byKey[k] == id
    ensures k.doc == doc
  {
    AskedEachHeld(t, Space.CodeLens, doc, names);
    var r := AskedEach(t, Space.CodeLens, doc, names);
    var i :| 0 <= i < |r.1| && r.1[i] == id;
    assert r.0.byKey[Key(Space.CodeLens, doc, names[i])] == id;
  }

  /** The state once a document's lenses are drawn, whatever they look like. */
  function DrawnShared(s: Shared, doc: string): Shared {
    var slots := Slots(s.c, doc);
    var r := AskedEach(s.t, Space.CodeLens, doc, KeysOf(slots));
    Shared(s.c.(byId := Filed(Without(s.c.byId, doc), doc, slots, r.1)),
           Retained(r.0, Space.CodeLens, doc, SetOf(r.1)))
  }

  lemma HappenedDrawn(s: Shared, doc: string, version: nat, lines: seq<string>)
    ensures Happened(s, LensesDrawn(doc, version, lines)) == DrawnShared(s, doc)
  {
  }

  lemma DrawnFiled(s: Shared, doc: string)
    requires FiledSafely(s) && Valid(s.t) && Roomy(DrawnShared(s, doc).t)
    ensures FiledSafely(DrawnShared(s, doc))
  {
    var names := KeysOf(Slots(s.c, doc));
    var r := AskedEach(s.t, Space.CodeLens, doc, names);
    AskedEachFiled(s, doc, names);
    AskedOwnKeys(s.t, doc, names);
    DrawnByIds(s, doc);
    RefiledSafely(s.(t := r.0), DrawnShared(s, doc), doc, r.1);
  }

  lemma AskedOwnKeys(t: Table, doc: string, names: seq<string>)
    requires Valid(t) && Roomy(AskedEach(t, Space.CodeLens, doc, names).0)
    ensures var r := AskedEach(t, Space.CodeLens, doc, names);
            forall id, k :: id in r.1 && k in r.0.byKey && r.0.byKey[k] == id ==> k.doc == doc
  {
    var r := AskedEach(t, Space.CodeLens, doc, names);
    forall id, k | id in r.1 && k in r.0.byKey && r.0.byKey[k] == id
      ensures k.doc == doc
    {
      OwnKeys(t, doc, names, id, k);
    }
  }

  /** What a drawing files: the ids asked for, under the document, and what it left of other documents. */
  lemma DrawnByIds(s: Shared, doc: string)
    ensures var ids := AskedEach(s.t, Space.CodeLens, doc, KeysOf(Slots(s.c, doc))).1;
            var byId := DrawnShared(s, doc).c.byId;
            && (forall id :: id in byId ==>
                  if id in ids then byId[id].doc == doc else id in s.c.byId && byId[id] == s.c.byId[id])
            && (forall id :: id in s.c.byId && s.c.byId[id].doc != doc ==> id in byId)
  {
    var slots := Slots(s.c, doc);
    FiledIs(Without(s.c.byId, doc), doc, slots, AskedEach(s.t, Space.CodeLens, doc, KeysOf(slots)).1);
  }

  lemma RefiledSafely(s: Shared, u: Shared, doc: string, ids: seq<nat>)
    requires FiledSafely(s) && u.t.next == s.t.next
    requires forall k :: k in u.t.byKey ==> k in s.t.byKey && s.t.byKey[k] == u.t.byKey[k]
    requires forall id :: id in ids ==> id % COUNTERS <= s.t.next
    requires forall id, k :: id in ids && k in s.t.byKey && s.t.byKey[k] == id ==> k.doc == doc
    requires forall id :: id in u.c.byId ==>
               if id in ids then u.c.byId[id].doc == doc else id in s.c.byId && u.c.byId[id] == s.c.byId[id]
    ensures FiledSafely(u)
  {
  }

  lemma {:induction false} RanFiled(events: seq<Event>)
    requires Roomy(Ran(events).t)
    ensures FiledSafely(Ran(events))
  {
    if events == [] {
    } else {
      var n := |events| - 1;
      HappenedNext(Ran(events[..n]), events[n]);
      RanFiled(events[..n]);
      RanSound(events[..n]);
      HappenedFiled(Ran(events[..n]), events[n]);
    }
  }

  /** Does the event leave `doc` alone? */
  predicate Elsewhere(e: Event, doc: string) {
    match e
    case ListSet(d, _, _, _) => d != doc
    case LensResolved(d, _, _, _, _) => d != doc
    case DocEdited(d, _, _) => d != doc
    case LensesDrawn(d, _, _) => d != doc
    case DocClosed(d) => d != doc
    case ProviderGone(_) => false
    case OtherIds(_) => true
  }

  /** After any run, whatever happens to other documents leaves each id drawn for this one leading where it did. */
  lemma OthersLeadOn(events: seq<Event>, e: Event, id: nat)
    requires Roomy(Happened(Ran(events), e).t)
    requires id in Ran(events).c.byId && Elsewhere(e, Ran(events).c.byId[id].doc)
    ensures var c, d := Ran(events).c, Happened(Ran(events), e).c;
            id in d.byId && d.byId[id] == c.byId[id] && CommandFor(d, id) == CommandFor(c, id)
  {
    HappenedNext(Ran(events), e);
    RanFiled(events);
    RanSound(events);
    LeadsOn(Ran(events), e, id);
  }

  lemma LeadsOn(s: Shared, e: Event, id: nat)
    requires FiledSafely(s) && Valid(s.t) && Roomy(Happened(s, e).t)
    requires id in s.c.byId && Elsewhere(e, s.c.byId[id].doc)
    ensures var d := Happened(s, e).c;
            id in d.byId && d.byId[id] == s.c.byId[id] && CommandFor(d, id) == CommandFor(s.c, id)
  {
    if e.LensesDrawn? {
      HappenedDrawn(s, e.doc, e.version, e.lines);
      DrawnElsewhere(s, e.doc, id);
    }
  }

  lemma DrawnElsewhere(s: Shared, doc: string, id: nat)
    requires FiledSafely(s) && Valid(s.t) && Roomy(DrawnShared(s, doc).t)
    requires id in s.c.byId && s.c.byId[id].doc != doc
    ensures var d := DrawnShared(s, doc).c; id in d.byId && d.byId[id] == s.c.byId[id] && d.byDoc == s.c.byDoc
  {
    AskedEachFiled(s, doc, KeysOf(Slots(s.c, doc)));
    DrawnByIds(s, doc);
  }

  /** Closing a document leaves no id leading into it. */
  lemma ClosedLeadsNowhere(c: Lenses, doc: string, id: nat)
    ensures var d := ClosedSpec(c, doc);
            && CommandFor(d, id) == (if id in c.byId && c.byId[id].doc == doc then None else CommandFor(c, id))
            && ListsOf(d, doc) == map[]
  {
  }
}
