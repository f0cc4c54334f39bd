/** What the session draws in the widget (`ember/editor/src/widget.rs`). */
module Decorations {
  import opened Wrappers
  import opened Coords
  import opened Ordering

  datatype Severity = Error | Warning | Information | Hint

  function FromMarker(severity: nat): Severity {
    if severity == 8 then Error else if severity == 4 then Warning else if severity == 2 then Information else Hint
  }

  datatype Kind = Underline | LensTitle | HoverAnchor | GhostText

  datatype Decoration = Decoration(
    id: nat,
    version: nat,
    kind: Kind,
    severity: Option<Severity>,
    color: nat,
    range: WidgetRange,
    text: string)

  /** By range, then by id. */
  predicate Earlier(a: Decoration, b: Decoration) {
    || a.range.start.Before(b.range.start)
    || (a.range.start == b.range.start
        && (a.range.end.Before(b.range.end) || (a.range.end == b.range.end && a.id < b.id)))
  }

  lemma EarlierOrders()
    ensures StrictWeak(Earlier)
  {
  }

  /** The decorations as the widget takes them. */
  function Arranged(ds: seq<Decoration>): seq<Decoration> {
    Sorted(ds, Earlier)
  }

  /** They are the ones computed, in order of their ranges and ids. */
  lemma ArrangedSame(ds: seq<Decoration>)
    ensures multiset(Arranged(ds)) == multiset(ds) && InOrder(Arranged(ds), Earlier)
  {
    EarlierOrders();
    SortedSame(ds, Earlier);
    SortedInOrder(ds, Earlier);
  }

  /** From one to the next the range starts later, or starts with it and ends later, or is the same and the id is not
      smaller. */
  lemma ArrangedByRange(ds: seq<Decoration>, i: nat, j: nat)
    requires i < j < |Arranged(ds)|
    ensures var a, b := Arranged(ds)[i], Arranged(ds)[j];
            && a.range.start.NotAfter(b.range.start)
            && (a.range.start == b.range.start ==> a.range.end.NotAfter(b.range.end))
            && (a.range == b.range ==> a.id <= b.id)
  {
    ArrangedSame(ds);
  }

  predicate DistinctIds(ds: seq<Decoration>) {
    forall i, j :: 0 <= i < j < |ds| ==> ds[i].id != ds[j].id
  }

  /** Arranging decorations does not make two of them share an id. */
  lemma ArrangedDistinct(ds: seq<Decoration>)
    requires DistinctIds(ds)
    ensures DistinctIds(Arranged(ds))
  {
    var r := Arranged(ds);
    ArrangedSame(ds);
    SameIdsCounted(ds);
    forall i, j | 0 <= i < j < |r|
      ensures r[i].id != r[j].id
    {
      assert r[i] in multiset(r) && r[j] in multiset(r);
      CountedTwice(r, i, j);
    }
  }

  lemma CountedTwice<T>(s: seq<T>, i: nat, j: nat)
    requires i < j < |s|
    ensures s[i] == s[j] ==> multiset(s)[s[i]] >= 2
  {
    assert s == s[..j] + ([s[j]] + s[j + 1..]);
    assert s[i] in s[..j];
  }

  lemma OnlyOnce(ds: seq<Decoration>, i: nat)
    requires DistinctIds(ds) && i < |ds|
    ensures multiset(ds)[ds[i]] == 1
  {
    assert ds == ds[..i] + ([ds[i]] + ds[i + 1..]);
    assert ds[i] !in ds[..i] && ds[i] !in ds[i + 1..];
  }

  lemma SameIdsCounted(ds: seq<Decoration>)
    requires DistinctIds(ds)
    ensures forall x, y :: x in multiset(ds) && y in multiset(ds) && x.id == y.id ==> x == y
    ensures forall x :: x in multiset(ds) ==> multiset(ds)[x] == 1
  {
    forall x | x in multiset(ds)
      ensures multiset(ds)[x] == 1
    {
      var i :| 0 <= i < |ds| && ds[i] == x;
      OnlyOnce(ds, i);
    }
  }
}
