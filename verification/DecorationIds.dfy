/** Decoration ids that name one decoration and are never given out again (`ember/editor/src/ids.rs`). */
module Ids {
  import opened Wrappers

  datatype Space = Diagnostic | CodeLens | HoverAnchor | GhostText

  function CodeOf(space: Space): (n: nat)
    ensures 1 <= n <= 4
  {
    match space
    case Diagnostic => 1
    case CodeLens => 2
    case HoverAnchor => 3
    case GhostText => 4
  }

  function FromCode(n: nat): Option<Space> {
    if n == 1 then Some(Diagnostic)
    else if n == 2 then Some(CodeLens)
    else if n == 3 then Some(HoverAnchor)
    else if n == 4 then Some(GhostText)
    else None
  }

  /** The top byte of an id is its space, the other 56 bits a counter. */
  const COUNTERS: nat := 0x100_0000_0000_0000

  function Packed(space: Space, counter: nat): nat {
    CodeOf(space) * COUNTERS + counter % COUNTERS
  }

  /** Which bridge an id belongs to. */
  function SpaceOf(id: nat): Option<Space> {
    if id == 0 then None else FromCode(id / COUNTERS % 256)
  }

  /** An id is not zero, and carries its space and its counter. */
  lemma PackedCarries(space: Space, counter: nat)
    ensures var id := Packed(space, counter);
            id != 0 && id < 0x1_0000_0000_0000_0000 && SpaceOf(id) == Some(space) && id % COUNTERS == counter % COUNTERS
  {
    var c := counter % COUNTERS;
    match space {
      case Diagnostic => assert (1 * COUNTERS + c) / COUNTERS == 1;
      case CodeLens => assert (2 * COUNTERS + c) / COUNTERS == 2;
      case HoverAnchor => assert (3 * COUNTERS + c) / COUNTERS == 3;
      case GhostText => assert (4 * COUNTERS + c) / COUNTERS == 4;
    }
  }

  /** An id is the number of its space, 1 for diagnostics, 2 for lenses, 3 for hovers and 4 for ghost text, above the
      56 bits of its counter. */
  lemma IdLayout(space: Space, counter: nat)
    requires counter < COUNTERS
    ensures var id, n := Packed(space, counter), 0x100_0000_0000_0000;
            && id % n == counter
            && match space
               case Diagnostic => id / n == 1
               case CodeLens => id / n == 2
               case HoverAnchor => id / n == 3
               case GhostText => id / n == 4
  {
    PackedCarries(space, counter);
  }

  datatype Key = Key(space: Space, doc: string, name: string)

  datatype Table = Table(next: nat, byKey: map<Key, nat>)

  const NONE := Table(0, map[])

  /** The table after a key was asked for, and its id. */
  function Asked(t: Table, k: Key): (Table, nat) {
    if k in t.byKey then (t, t.byKey[k])
    else
      var id := Packed(k.space, t.next + 1);
      (Table(t.next + 1, t.byKey[k := id]), id)
  }

  function Forgotten(t: Table, doc: string): Table {
    t.(byKey := map k | k in t.byKey && k.doc != doc :: t.byKey[k])
  }

  function Retained(t: Table, space: Space, doc: string, live: set<nat>): Table {
    t.(byKey := map k | k in t.byKey && (k.space != space || k.doc != doc || t.byKey[k] in live) :: t.byKey[k])
  }

  // ---- what the table keeps ------------------------------------------------------------------

  /** Every key has its own counter, at most `next`. */
  predicate Valid(t: Table) {
    && (forall k :: k in t.byKey ==> 1 <= t.byKey[k] % COUNTERS <= t.next && t.byKey[k] == Packed(k.space, t.byKey[k]))
    && (forall k, l :: k in t.byKey && l in t.byKey && t.byKey[k] % COUNTERS == t.byKey[l] % COUNTERS ==> k == l)
  }

  /** While fewer than 2^56 ids were given out. */
  predicate Roomy(t: Table) {
    t.next < COUNTERS
  }

  lemma AskedValid(t: Table, k: Key)
    requires Valid(t) && Roomy(Asked(t, k).0)
    ensures Valid(Asked(t, k).0)
    ensures Asked(t, k).1 == Packed(k.space, Asked(t, k).1)
  {
    if k !in t.byKey {
      FreshCounter(k.space, t.next + 1);
      AddedValid(t, k, Packed(k.space, t.next + 1));
    }
  }

  lemma FreshCounter(space: Space, counter: nat)
    requires counter < COUNTERS
    ensures var id := Packed(space, counter); id % COUNTERS == counter && id == Packed(space, id)
  {
    PackedCarries(space, counter);
  }

  lemma AddedValid(t: Table, k: Key, id: nat)
    requires Valid(t) && k !in t.byKey && id % COUNTERS == t.next + 1 && id == Packed(k.space, id)
    ensures Valid(Table(t.next + 1, t.byKey[k := id]))
  {
  }

  lemma DroppedValid(t: Table, doc: string, space: Space, live: set<nat>)
    requires Valid(t)
    ensures Valid(Forgotten(t, doc)) && Valid(Retained(t, space, doc, live))
  {
  }

  // ---- runs ----------------------------------------------------------------------------------

  datatype Op = Ask(key: Key) | Forget(doc: string) | Retain(space: Space, doc: string, live: set<nat>)

  function Done(t: Table, op: Op): Table {
    match op
    case Ask(k) => Asked(t, k).0
    case Forget(doc) => Forgotten(t, doc)
    case Retain(space, doc, live) => Retained(t, space, doc, live)
  }

  lemma DoneValid(t: Table, op: Op)
    requires Valid(t) && Roomy(Done(t, op))
    ensures Valid(Done(t, op))
  {
    match op {
      case Ask(k) => AskedValid(t, k);
      case Forget(doc) => DroppedValid(t, doc, Diagnostic, {});
      case Retain(space, doc, live) => DroppedValid(t, doc, space, live);
    }
  }

  /** The table before the `n`-th operation of a run. */
  function At(ops: seq<Op>, n: nat): Table
    requires n <= |ops|
  {
    if n == 0 then NONE else Done(At(ops, n - 1), ops[n - 1])
  }

  /** The id the `i`-th operation is answered with. */
  function Answer(ops: seq<Op>, i: nat): nat
    requires i < |ops| && ops[i].Ask?
  {
    Asked(At(ops, i), ops[i].key).1
  }

  /** A run in which fewer than 2^56 ids are given out. */
  predicate Short(ops: seq<Op>) {
    Roomy(At(ops, |ops|))
  }

  /** The counter never goes back. */
  lemma {:induction false} NextGrows(ops: seq<Op>, i: nat, j: nat)
    requires i <= j <= |ops|
    ensures At(ops, i).next <= At(ops, j).next
  {
    if i == j {
    } else {
      NextGrows(ops, i, j - 1);
    }
  }

  lemma {:induction false} RunValid(ops: seq<Op>, n: nat)
    requires n <= |ops| && Short(ops)
    ensures Valid(At(ops, n)) && Roomy(At(ops, n))
  {
    NextGrows(ops, n, |ops|);
    if n == 0 {
    } else {
      RunValid(ops, n - 1);
      DoneValid(At(ops, n - 1), ops[n - 1]);
    }
  }

  /** The table some run of operations leads to. */
  ghost predicate Reached(t: Table) {
    exists ops :: t == At(ops, |ops|)
  }

  lemma ReachedValid(t: Table)
    requires Reached(t) && Roomy(t)
    ensures Valid(t)
  {
    var ops :| t == At(ops, |ops|);
    RunValid(ops, |ops|);
  }

  /** Over every run, answers are not zero and carry the space asked for. */
  lemma AnswersCarrySpace(ops: seq<Op>, i: nat)
    requires i < |ops| && ops[i].Ask? && Short(ops)
    ensures Answer(ops, i) != 0 && SpaceOf(Answer(ops, i)) == Some(ops[i].key.space)
  {
    RunValid(ops, i);
    RunValid(ops, i + 1);
    AskedValid(At(ops, i), ops[i].key);
    PackedCarries(ops[i].key.space, Answer(ops, i));
  }

  /** The key answered by the `i`-th operation stays known up to the `j`-th. */
  predicate KnownThroughout(ops: seq<Op>, i: nat, j: nat)
    requires i < j <= |ops| && ops[i].Ask?
  {
    ops[i].key in At(ops, j).byKey && (j > i + 1 ==> KnownThroughout(ops, i, j - 1))
  }

  lemma {:induction false} KnownBetween(ops: seq<Op>, i: nat, m: nat, j: nat)
    requires i < m <= j <= |ops| && ops[i].Ask? && KnownThroughout(ops, i, j)
    ensures ops[i].key in At(ops, m).byKey
  {
    if m == j {
    } else {
      KnownBetween(ops, i, m, j - 1);
    }
  }

  /** An id given to `k` is held by `k` while that is `known`, and by no key after that. */
  predicate Held(t: Table, k: Key, id: nat, known: bool) {
    && id % COUNTERS <= t.next
    && (known ==> k in t.byKey && t.byKey[k] == id)
    && (forall l :: l in t.byKey && t.byKey[l] == id ==> l == k && known)
  }

  lemma HeldFirst(t: Table, k: Key)
    requires Valid(t) && Roomy(Asked(t, k).0)
    ensures Held(Asked(t, k).0, k, Asked(t, k).1, true)
  {
    AskedValid(t, k);
    assert k in Asked(t, k).0.byKey;
  }

  /** A key not known gets an id no other key was ever given. */
  lemma NewIdIsNew(t: Table, k: Key, id: nat)
    requires Roomy(Asked(t, k).0) && id % COUNTERS <= t.next && k !in t.byKey
    ensures Asked(t, k).1 != id
  {
    PackedCarries(k.space, t.next + 1);
    assert (t.next + 1) % COUNTERS == t.next + 1;
  }

  lemma HeldStep(t: Table, op: Op, k: Key, id: nat, known: bool)
    requires Valid(t) && Roomy(Done(t, op)) && Held(t, k, id, known)
    ensures Held(Done(t, op), k, id, known && k in Done(t, op).byKey)
  {
    if op.Ask? && op.key !in t.byKey {
      NewIdIsNew(t, op.key, id);
    }
  }

  lemma AnswerHeldFirst(ops: seq<Op>, i: nat)
    requires i < |ops| && ops[i].Ask? && Short(ops)
    ensures KnownThroughout(ops, i, i + 1) && Held(At(ops, i + 1), ops[i].key, Answer(ops, i), true)
  {
    RunValid(ops, i);
    NextGrows(ops, i + 1, |ops|);
    HeldFirst(At(ops, i), ops[i].key);
  }

  lemma HeldOn(ops: seq<Op>, j: nat, k: Key, id: nat, known: bool)
    requires 0 < j <= |ops| && Short(ops) && Held(At(ops, j - 1), k, id, known)
    ensures Held(At(ops, j), k, id, known && k in At(ops, j).byKey)
  {
    RunValid(ops, j - 1);
    NextGrows(ops, j, |ops|);
    HeldStep(At(ops, j - 1), ops[j - 1], k, id, known);
  }

  lemma {:induction false} AnswerHeld(ops: seq<Op>, i: nat, j: nat)
    requires i < j <= |ops| && ops[i].Ask? && Short(ops)
    ensures Held(At(ops, j), ops[i].key, Answer(ops, i), KnownThroughout(ops, i, j))
  {
    if j == i + 1 {
      AnswerHeldFirst(ops, i);
    } else {
      AnswerHeld(ops, i, j - 1);
      HeldOn(ops, j, ops[i].key, Answer(ops, i), KnownThroughout(ops, i, j - 1));
    }
  }

  /** A held id is answered to its own key while that is known, and to nothing else. */
  lemma AnsweredIfHeld(t: Table, k: Key, id: nat, known: bool, asked: Key)
    requires Roomy(Asked(t, asked).0) && Held(t, k, id, known)
    ensures Asked(t, asked).1 == id <==> asked == k && known
  {
    if asked !in t.byKey {
      NewIdIsNew(t, asked, id);
    }
  }

  lemma RoomAt(ops: seq<Op>, j: nat)
    requires j < |ops| && ops[j].Ask? && Short(ops)
    ensures Roomy(Asked(At(ops, j), ops[j].key).0)
  {
    NextGrows(ops, j + 1, |ops|);
  }

  /** Two answers are the same id exactly when the key is the same and was known all the while:
      a key dropped in between gets an id never given out before. */
  lemma IdsIdentify(ops: seq<Op>, i: nat, j: nat)
    requires i < j < |ops| && ops[i].Ask? && ops[j].Ask? && Short(ops)
    ensures Answer(ops, i) == Answer(ops, j) <==> ops[i].key == ops[j].key && KnownThroughout(ops, i, j)
  {
    var id, known := Answer(ops, i), KnownThroughout(ops, i, j);
    AnswerHeld(ops, i, j);
    RoomAt(ops, j);
    AnsweredIfHeld(At(ops, j), ops[i].key, id, known, ops[j].key);
  }

  /** An id answered before its document was forgotten is never answered again. */
  lemma NeverReissued(ops: seq<Op>, i: nat, f: nat, j: nat)
    requires i < f < j < |ops| && ops[i].Ask? && ops[j].Ask? && Short(ops)
    requires ops[f].Forget? && ops[f].doc == ops[i].key.doc
    ensures Answer(ops, i) != Answer(ops, j)
  {
    IdsIdentify(ops, i, j);
    if KnownThroughout(ops, i, j) {
      KnownBetween(ops, i, f + 1, j);
    }
  }

  /** Does the operation drop a key with this id? */
  predicate Drops(op: Op, k: Key, id: nat) {
    match op
    case Ask(_) => false
    case Forget(doc) => doc == k.doc
    case Retain(space, doc, live) => space == k.space && doc == k.doc && id !in live
  }

  lemma {:induction false} KnownUnlessDropped(ops: seq<Op>, i: nat, j: nat)
    requires i < j <= |ops| && ops[i].Ask? && Short(ops)
    ensures KnownThroughout(ops, i, j) <==> forall f :: i < f < j ==> !Drops(ops[f], ops[i].key, Answer(ops, i))
  {
    AnswerHeld(ops, i, j);
    if j == i + 1 {
      AnswerHeldFirst(ops, i);
    } else {
      KnownUnlessDropped(ops, i, j - 1);
      AnswerHeld(ops, i, j - 1);
      DropStep(At(ops, j - 1), ops[j - 1], ops[i].key, Answer(ops, i));
    }
  }

  lemma DropStep(t: Table, op: Op, k: Key, id: nat)
    ensures k in t.byKey && t.byKey[k] == id ==> (k in Done(t, op).byKey <==> !Drops(op, k, id))
  {
  }

  /** Over every run, a key is answered with the same id again exactly when nothing in between dropped it: its document
      was not forgotten, and no recomputation of its space of the document left its id out. */
  lemma SameIdUnlessDropped(ops: seq<Op>, i: nat, j: nat)
    requires i < j < |ops| && ops[i].Ask? && ops[j].Ask? && ops[i].key == ops[j].key && Short(ops)
    ensures Answer(ops, i) == Answer(ops, j)
       <==> forall f :: i < f < j ==> !Drops(ops[f], ops[i].key, Answer(ops, i))
  {
    IdsIdentify(ops, i, j);
    KnownUnlessDropped(ops, i, j);
  }

  // ---- many keys at once ---------------------------------------------------------------------

  /** Ask for each name of one document in turn. */
  function AskedEach(t: Table, space: Space, doc: string, names: seq<string>): (r: (Table, seq<nat>))
    ensures |r.1| == |names|
  {
    if names == [] then (t, [])
    else
      var n := |names| - 1;
      var before := AskedEach(t, space, doc, names[..n]);
      var last := Asked(before.0, Key(space, doc, names[n]));
      (last.0, before.1 + [last.1])
  }

  lemma AskedGrows(t: Table, k: Key)
    ensures t.next <= Asked(t, k).0.next
    ensures k in Asked(t, k).0.byKey && Asked(t, k).0.byKey[k] == Asked(t, k).1
    ensures forall l :: l in t.byKey ==> l in Asked(t, k).0.byKey && Asked(t, k).0.byKey[l] == t.byKey[l]
  {
  }

  lemma {:induction false} AskedEachGrows(t: Table, space: Space, doc: string, names: seq<string>)
    ensures t.next <= AskedEach(t, space, doc, names).0.next
  {
    if names == [] {
    } else {
      var n := |names| - 1;
      AskedEachGrows(t, space, doc, names[..n]);
      AskedGrows(AskedEach(t, space, doc, names[..n]).0, Key(space, doc, names[n]));
    }
  }

  /** The table holds these ids for these names. */
  predicate HeldFor(t: Table, space: Space, doc: string, names: seq<string>, ids: seq<nat>) {
    |ids| == |names|
    && forall i :: 0 <= i < |names| ==>
         Key(space, doc, names[i]) in t.byKey && t.byKey[Key(space, doc, names[i])] == ids[i]
  }

  lemma HeldForMore(t: Table, space: Space, doc: string, names: seq<string>, ids: seq<nat>, name: string)
    requires HeldFor(t, space, doc, names, ids)
    ensures var r := Asked(t, Key(space, doc, name)); HeldFor(r.0, space, doc, names + [name], ids + [r.1])
  {
    AskedGrows(t, Key(space, doc, name));
  }

  predicate HeldWell(t: Table, space: Space, doc: string, names: seq<string>, ids: seq<nat>) {
    Valid(t) && HeldFor(t, space, doc, names, ids)
  }

  lemma AskedOneHeld(t: Table, space: Space, doc: string, names: seq<string>, ids: seq<nat>, name: string)
    requires HeldWell(t, space, doc, names, ids) && Roomy(Asked(t, Key(space, doc, name)).0)
    ensures var r := Asked(t, Key(space, doc, name)); HeldWell(r.0, space, doc, names + [name], ids + [r.1])
  {
    AskedValid(t, Key(space, doc, name));
    HeldForMore(t, space, doc, names, ids, name);
  }

  lemma RoomyBefore(t: Table, k: Key)
    requires Roomy(Asked(t, k).0)
    ensures Roomy(t)
  {
    AskedGrows(t, k);
  }

  lemma AskedLastHeld(t: Table, space: Space, doc: string, names: seq<string>, n: nat)
    requires |names| == n + 1 && Roomy(AskedEach(t, space, doc, names).0)
    requires var before := AskedEach(t, space, doc, names[..n]);
             HeldWell(before.0, space, doc, names[..n], before.1)
    ensures var r := AskedEach(t, space, doc, names); HeldWell(r.0, space, doc, names, r.1)
  {
    var before := AskedEach(t, space, doc, names[..n]);
    AskedOneHeld(before.0, space, doc, names[..n], before.1, names[n]);
    assert names == names[..n] + [names[n]];
  }

  /** While there is room, each name has its own id, the one the table now holds for it. */
  lemma {:induction false} AskedEachHeld(t: Table, space: Space, doc: string, names: seq<string>)
    requires Valid(t) && Roomy(AskedEach(t, space, doc, names).0)
    ensures var r := AskedEach(t, space, doc, names); HeldWell(r.0, space, doc, names, r.1)
  {
    if names == [] {
    } else {
      var n := |names| - 1;
      RoomyBefore(AskedEach(t, space, doc, names[..n]).0, Key(space, doc, names[n]));
      AskedEachHeld(t, space, doc, names[..n]);
      AskedLastHeld(t, space, doc, names, n);
    }
  }

  /** Different names get different ids, none zero, all of the space asked for. */
  lemma AskedEachDistinct(t: Table, space: Space, doc: string, names: seq<string>)
    requires Valid(t) && Roomy(AskedEach(t, space, doc, names).0)
    requires forall i, j :: 0 <= i < j < |names| ==> names[i] != names[j]
    ensures var ids := AskedEach(t, space, doc, names).1;
            && (forall i, j :: 0 <= i < j < |ids| ==> ids[i] != ids[j])
            && forall i :: 0 <= i < |ids| ==> ids[i] != 0 && SpaceOf(ids[i]) == Some(space)
  {
    AskedEachHeld(t, space, doc, names);
    var r := AskedEach(t, space, doc, names);
    forall i | 0 <= i < |r.1|
      ensures r.1[i] != 0 && SpaceOf(r.1[i]) == Some(space)
    {
      assert Key(space, doc, names[i]) in r.0.byKey;
      PackedCarries(space, r.1[i]);
    }
  }

  function SetOf(ids: seq<nat>): set<nat> {
    set id | id in ids
  }

  /** A recomputation that drops every key it did not ask for still has all the keys it asked for. */
  lemma KeptHeld(t: Table, space: Space, doc: string, names: seq<string>)
    requires Valid(t) && Roomy(AskedEach(t, space, doc, names).0)
    ensures var r := AskedEach(t, space, doc, names); var u := Retained(r.0, space, doc, SetOf(r.1));
            Valid(u) && HeldFor(u, space, doc, names, r.1)
  {
    AskedEachHeld(t, space, doc, names);
    var r := AskedEach(t, space, doc, names);
    DroppedValid(r.0, doc, space, SetOf(r.1));
    assert forall i :: 0 <= i < |names| ==> r.1[i] in SetOf(r.1);
  }

  /** Asking again for names that are all known gives the ids they have and changes nothing. */
  lemma {:induction false} AskedAgain(t: Table, space: Space, doc: string, names: seq<string>, ids: seq<nat>)
    requires HeldFor(t, space, doc, names, ids)
    ensures AskedEach(t, space, doc, names) == (t, ids)
  {
    if names == [] {
    } else {
      var n := |names| - 1;
      AskedAgain(t, space, doc, names[..n], ids[..n]);
      assert ids == ids[..n] + [ids[n]];
    }
  }

  // ---- the object itself ---------------------------------------------------------------------

  class DecorationIds {
    var next: nat
    var byKey: map<Key, nat>

    ghost function View(): Table
      reads this
    {
      Table(next, byKey)
    }

    constructor ()
      ensures View() == NONE
    {
      next, byKey := 0, map[];
    }

    method Id(space: Space, doc: string, name: string) returns (id: nat)
      modifies this
      ensures (View(), id) == Asked(old(View()), Key(space, doc, name))
    {
      var k := Key(space, doc, name);
      if k in byKey {
        return byKey[k];
      }
      next := next + 1;
      id := Packed(space, next);
      byKey := byKey[k := id];
    }

    method ForgetDocument(doc: string)
      modifies this
      ensures View() == Forgotten(old(View()), doc)
      ensures forall k :: k in byKey <==> k in old(byKey) && k.doc != doc
    {
      var todo := byKey.Keys;
      while todo != {}
        invariant next == old(next)
        invariant forall k :: k in byKey <==> k in old(byKey) && (k in todo || k.doc != doc)
        invariant forall k :: k in byKey ==> byKey[k] == old(byKey)[k]
        decreases |todo|
      {
        var k :| k in todo;
        todo := todo - {k};
        if k.doc == doc {
          byKey := byKey - {k};
        }
      }
    }

    method Keep(space: Space, doc: string, live: set<nat>)
      modifies this
      ensures View() == Retained(old(View()), space, doc, live)
      ensures forall k ::
                k in byKey <==> k in old(byKey) && (k.space == space && k.doc == doc ==> old(byKey)[k] in live)
    {
      var todo := byKey.Keys;
      while todo != {}
        invariant next == old(next) && todo <= old(byKey).Keys
        invariant forall k :: k in byKey <==>
                    k in old(byKey) && (k in todo || k.space != space || k.doc != doc || old(byKey)[k] in live)
        invariant forall k :: k in byKey ==> byKey[k] == old(byKey)[k]
        decreases |todo|
      {
        var k :| k in todo;
        todo := todo - {k};
        if k.space == space && k.doc == doc && byKey[k] !in live {
          byKey := byKey - {k};
        }
      }
    }
  }
}
