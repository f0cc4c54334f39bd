/** Content keys: numbers and texts joined by bars. */
module Keys {

  function Digit(d: nat): char
    requires d < 10
  {
    "0123456789"[d]
  }

  function Digits(n: nat): string {
    (if n < 10 then "" else Digits(n / 10)) + [Digit(n % 10)]
  }

  function Decimal(i: int): string {
    if i < 0 then "-" + Digits(-i) else Digits(i)
  }

  predicate IsDigit(c: char) {
    '0' <= c <= '9'
  }

  lemma {:induction false} DigitsAreDigits(n: nat)
    ensures Digits(n) != "" && forall i :: 0 <= i < |Digits(n)| ==> IsDigit(Digits(n)[i])
  {
    assert IsDigit(Digit(n % 10));
    if n >= 10 {
      DigitsAreDigits(n / 10);
    }
  }

  lemma DigitKnown(c: nat, d: nat)
    requires c < 10 && d < 10
    ensures Digit(c) == Digit(d) ==> c == d
  {
  }

  lemma {:induction false} DigitsInjective(m: nat, n: nat)
    ensures Digits(m) == Digits(n) ==> m == n
  {
    if Digits(m) == Digits(n) {
      var a, b := Digits(m), Digits(n);
      assert a[|a| - 1] == Digit(m % 10) && b[|b| - 1] == Digit(n % 10);
      DigitKnown(m % 10, n % 10);
      assert a[..|a| - 1] == if m < 10 then "" else Digits(m / 10);
      assert b[..|b| - 1] == if n < 10 then "" else Digits(n / 10);
      DigitsAreDigits(m / 10);
      DigitsAreDigits(n / 10);
      if m >= 10 && n >= 10 {
        DigitsInjective(m / 10, n / 10);
      }
    }
  }

  lemma DecimalInjective(i: int, j: int)
    ensures Decimal(i) == Decimal(j) ==> i == j
  {
    DigitsAreDigits(if i < 0 then -i else i);
    DigitsAreDigits(if j < 0 then -j else j);
    if i < 0 && j < 0 {
      assert Decimal(i)[1..] == Digits(-i) && Decimal(j)[1..] == Digits(-j);
      DigitsInjective(-i, -j);
    } else if i >= 0 && j >= 0 {
      DigitsInjective(i, j);
    } else {
      assert Decimal(i)[0] == if i < 0 then '-' else Digits(i)[0];
      assert Decimal(j)[0] == if j < 0 then '-' else Digits(j)[0];
    }
  }

  predicate NoBar(s: string) {
    forall i :: 0 <= i < |s| ==> s[i] != '|'
  }

  lemma DecimalNoBar(i: int)
    ensures NoBar(Decimal(i))
  {
    DigitsAreDigits(if i < 0 then -i else i);
  }

  function Barred(a: string, b: string): string {
    a + "|" + b
  }

  /** A text up to its first bar is one part of it. */
  lemma FirstBar(a: string, x: string, b: string, y: string)
    requires NoBar(a) && NoBar(b) && Barred(a, x) == Barred(b, y)
    ensures a == b && x == y
  {
    var s, t := Barred(a, x), Barred(b, y);
    assert s[|a|] == '|' && t[|b|] == '|';
    assert forall i :: 0 <= i < |a| ==> s[i] == a[i];
    assert forall i :: 0 <= i < |b| ==> t[i] == b[i];
    assert |a| == |b|;
    assert a == s[..|a|] && b == t[..|b|] && x == s[|a| + 1..] && y == t[|b| + 1..];
  }

  /** A text after its last bar is one part of it. */
  lemma LastBar(a: string, x: string, b: string, y: string)
    requires NoBar(x) && NoBar(y) && Barred(a, x) == Barred(b, y)
    ensures a == b && x == y
  {
    var s, t := Barred(a, x), Barred(b, y);
    assert s[|a|] == '|' && t[|b|] == '|';
    assert forall i :: |a| < i < |s| ==> s[i] == x[i - |a| - 1];
    assert forall i :: |b| < i < |t| ==> t[i] == y[i - |b| - 1];
    assert |a| == |b|;
    assert a == s[..|a|] && b == t[..|b|] && x == s[|a| + 1..] && y == t[|b| + 1..];
  }

  /** A number among the same before it grows from one occurrence to the next. */
  lemma OccurrenceGrows<T>(s: seq<T>, i: nat, j: nat)
    requires i < j < |s|
    ensures multiset(s[..i])[s[i]] < multiset(s[..j])[s[i]]
  {
    assert s[..j] == s[..i] + ([s[i]] + s[i + 1..j]);
  }
}
