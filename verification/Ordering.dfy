/** The order of ordered maps and sorted lists. */
module Ordering {

  /** Text order: by the first scalar that differs, a prefix first. */
  predicate Less(a: string, b: string) {
    b != "" && (a == "" || a[0] < b[0] || (a[0] == b[0] && Less(a[1..], b[1..])))
  }

  ghost predicate StrictTotal<T(!new)>(before: (T, T) -> bool) {
    && (forall x :: !before(x, x))
    && (forall x, y :: before(x, y) || before(y, x) || x == y)
    && (forall x, y, z :: before(x, y) && before(y, z) ==> before(x, z))
  }

  lemma {:induction false} LessConnected(a: string, b: string)
    ensures Less(a, b) || Less(b, a) || a == b
  {
    if a != "" && b != "" && a[0] == b[0] {
      assert a == [a[0]] + a[1..] && b == [b[0]] + b[1..];
      LessConnected(a[1..], b[1..]);
    }
  }

  lemma {:induction false} LessIrreflexive(a: string)
    ensures !Less(a, a)
  {
    if a == "" {
    } else {
      LessIrreflexive(a[1..]);
    }
  }

  lemma {:induction false} LessTransitive(a: string, b: string, c: string)
    requires Less(a, b) && Less(b, c)
    ensures Less(a, c)
  {
    if a != "" && a[0] == b[0] == c[0] {
      LessTransitive(a[1..], b[1..], c[1..]);
    }
  }

  lemma TextOrder()
    ensures StrictTotal(Less)
  {
    forall a, b
      ensures Less(a, b) || Less(b, a) || a == b
      ensures !Less(a, a)
    {
      LessConnected(a, b);
      LessIrreflexive(a);
    }
    forall a, b, c | Less(a, b) && Less(b, c)
      ensures Less(a, c)
    {
      LessTransitive(a, b, c);
    }
  }

  ghost predicate Ascending<T(!new)>(s: seq<T>, before: (T, T) -> bool) {
    forall i, j :: 0 <= i < j < |s| ==> before(s[i], s[j])
  }

  predicate First<T(==, !new)>(m: T, s: set<T>, before: (T, T) -> bool) {
    m in s && forall x :: x in s ==> x == m || before(m, x)
  }

  lemma FirstOfMore<T(!new)>(s: set<T>, y: T, r: T, before: (T, T) -> bool)
    requires StrictTotal(before) && y in s && First(r, s - {y}, before)
    ensures First(if before(y, r) then y else r, s, before)
  {
    forall x | x in s
      ensures var m := if before(y, r) then y else r; x == m || before(m, x)
    {
      if x != y {
        assert x in s - {y};
      }
    }
  }

  lemma {:induction false} FirstExists<T(!new)>(s: set<T>, before: (T, T) -> bool)
    requires StrictTotal(before) && s != {}
    ensures exists m :: First(m, s, before)
    decreases |s|
  {
    var y :| y in s;
    var rest := s - {y};
    if rest == {} {
      assert s == {y};
      assert First(y, s, before);
    } else {
      FirstExists(rest, before);
      var r :| First(r, rest, before);
      FirstOfMore(s, y, r, before);
    }
  }

  /** The elements of `s` in order. */
  function Ordered<T(==, !new)>(s: set<T>, before: (T, T) -> bool): (r: seq<T>)
    requires StrictTotal(before)
    ensures Ascending(r, before)
    ensures forall x :: x in r <==> x in s
    decreases |s|
  {
    if s == {} then []
    else
      FirstExists(s, before);
      var m :| First(m, s, before);
      [m] + Ordered(s - {m}, before)
  }

  /** There is only one way to put a set in order. */
  lemma {:induction false} OneOrder<T(!new)>(a: seq<T>, b: seq<T>, before: (T, T) -> bool)
    requires StrictTotal(before) && Ascending(a, before) && Ascending(b, before)
    requires forall x :: x in a <==> x in b
    ensures a == b
  {
    if a == [] {
      assert forall i :: 0 <= i < |b| ==> b[i] in b;
    } else {
      assert a[0] in a && a[0] in b;
      assert b[0] in b && b[0] in a;
      assert a[0] == b[0];
      assert a == [a[0]] + a[1..] && b == [b[0]] + b[1..];
      forall x
        ensures x in a[1..] <==> x in b[1..]
      {
        if x in a[1..] {
          var i :| 0 < i < |a| && a[i] == x;
          assert before(a[0], x) && x in a;
        }
        if x in b[1..] {
          var i :| 0 < i < |b| && b[i] == x;
          assert before(b[0], x) && x in b;
        }
      }
      OneOrder(a[1..], b[1..], before);
    }
  }

  lemma {:induction false} OrderedLength<T(!new)>(s: set<T>, before: (T, T) -> bool)
    requires StrictTotal(before)
    ensures |Ordered(s, before)| == |s|
    decreases |s|
  {
    if s == {} {
    } else {
      var m := Ordered(s, before)[0];
      assert Ordered(s, before)[1..] == Ordered(s - {m}, before);
      OrderedLength(s - {m}, before);
    }
  }

  // ---- sorting -------------------------------------------------------------------------------

  function Inserted<T>(s: seq<T>, x: T, before: (T, T) -> bool): seq<T> {
    if s == [] || !before(x, s[|s| - 1]) then s + [x]
    else Inserted(s[..|s| - 1], x, before) + [s[|s| - 1]]
  }

  /** A stable sort. */
  function Sorted<T>(s: seq<T>, before: (T, T) -> bool): seq<T> {
    if s == [] then [] else Inserted(Sorted(s[..|s| - 1], before), s[|s| - 1], before)
  }

  /** An order in which some elements may tie. */
  ghost predicate StrictWeak<T(!new)>(before: (T, T) -> bool) {
    && (forall x, y :: before(x, y) ==> !before(y, x))
    && (forall x, y, z :: !before(x, y) && !before(y, z) ==> !before(x, z))
  }

  ghost predicate InOrder<T(!new)>(s: seq<T>, before: (T, T) -> bool) {
    forall i, j :: 0 <= i < j < |s| ==> !before(s[j], s[i])
  }

  lemma {:induction false} InsertedSame<T>(s: seq<T>, x: T, before: (T, T) -> bool)
    ensures multiset(Inserted(s, x, before)) == multiset(s) + multiset{x}
  {
    if s != [] && before(x, s[|s| - 1]) {
      InsertedSame(s[..|s| - 1], x, before);
      assert s == s[..|s| - 1] + [s[|s| - 1]];
    }
  }

  lemma {:induction false} SortedSame<T>(s: seq<T>, before: (T, T) -> bool)
    ensures multiset(Sorted(s, before)) == multiset(s)
  {
    if s == [] {
    } else {
      SortedSame(s[..|s| - 1], before);
      InsertedSame(Sorted(s[..|s| - 1], before), s[|s| - 1], before);
      assert s == s[..|s| - 1] + [s[|s| - 1]];
    }
  }

  lemma {:induction false} InsertedInOrder<T(!new)>(s: seq<T>, x: T, before: (T, T) -> bool)
    requires StrictWeak(before) && InOrder(s, before)
    ensures InOrder(Inserted(s, x, before), before)
  {
    var r := Inserted(s, x, before);
    if s == [] || !before(x, s[|s| - 1]) {
      forall i, j | 0 <= i < j < |r|
        ensures !before(r[j], r[i])
      {
        if j == |s| && i < |s| - 1 {
          assert !before(s[|s| - 1], s[i]);
        }
      }
    } else {
      var n := |s| - 1;
      InsertedInOrder(s[..n], x, before);
      InsertedSame(s[..n], x, before);
      forall i | 0 <= i < |Inserted(s[..n], x, before)|
        ensures !before(s[n], Inserted(s[..n], x, before)[i])
      {
        var y := Inserted(s[..n], x, before)[i];
        assert y in multiset(Inserted(s[..n], x, before));
        assert y in multiset(s[..n]) || y == x;
      }
    }
  }

  /** Sorting puts the same elements in order. */
  lemma {:induction false} SortedInOrder<T(!new)>(s: seq<T>, before: (T, T) -> bool)
    requires StrictWeak(before)
    ensures InOrder(Sorted(s, before), before)
  {
    if s == [] {
    } else {
      SortedInOrder(s[..|s| - 1], before);
      InsertedInOrder(Sorted(s[..|s| - 1], before), s[|s| - 1], before);
    }
  }
}
