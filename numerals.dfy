/**
 * Decimal numerals as strings: their value, the canonical rendering of a
 * natural number, and the two string orders a document store can sort by
 * (plain lexicographic order, and the "length first, then characters" order
 * used to rank identifiers stored as text).
 */
module Numerals {

  predicate IsDigit(c: char) { '0' <= c <= '9' }

  predicate AllDigits(s: string) { forall i :: 0 <= i < |s| ==> IsDigit(s[i]) }

  /** A non-empty digit string without a leading zero (the single digit "0" is allowed). */
  predicate Canonical(s: string) { |s| > 0 && AllDigits(s) && (|s| > 1 ==> s[0] != '0') }

  function DigitValue(c: char): nat
    requires IsDigit(c)
  {
    c as int - '0' as int
  }

  function DigitChar(d: nat): (c: char)
    requires d < 10
    ensures IsDigit(c) && DigitValue(c) == d
  {
    ('0' as int + d) as char
  }

  function Pow10(k: nat): (r: nat)
    ensures r >= 1
  {
    if k == 0 then 1 else 10 * Pow10(k - 1)
  }

  /** The number a digit string denotes (leading zeros allowed, "" denotes 0). */
  function Value(s: string): nat
    requires AllDigits(s)
  {
    if s == [] then 0 else Value(s[..|s| - 1]) * 10 + DigitValue(s[|s| - 1])
  }

  /** The canonical decimal rendering of n, as Java's `n + ""` produces it. */
  function Decimal(n: nat): (s: string)
    ensures Canonical(s)
    ensures n > 0 ==> s[0] != '0'
  {
    if n < 10 then [DigitChar(n)] else Decimal(n / 10) + [DigitChar(n % 10)]
  }

  lemma {:induction false} ValueOfDecimal(n: nat)
    ensures Value(Decimal(n)) == n
  {
    if n >= 10 {
      var d := Decimal(n / 10);
      ValueOfDecimal(n / 10);
      assert (d + [DigitChar(n % 10)])[..|d|] == d;
    }
  }

  lemma {:induction false} Pow10Monotone(j: nat, k: nat)
    requires j <= k
    ensures Pow10(j) <= Pow10(k)
  {
    if j < k { Pow10Monotone(j, k - 1); }
  }

  /** A numeral of length k lies in [10^(k-1), 10^k) when it has no leading zero. */
  lemma {:induction false} ValueBounds(s: string)
    requires AllDigits(s)
    ensures Value(s) < Pow10(|s|)
    ensures |s| > 0 && s[0] != '0' ==> Pow10(|s| - 1) <= Value(s)
  {
    if s != [] {
      var pre := s[..|s| - 1];
      ValueBounds(pre);
      if |s| > 1 { assert pre[0] == s[0]; }
    }
  }

  lemma {:induction false} DecimalOfValue(s: string)
    requires Canonical(s)
    ensures Decimal(Value(s)) == s
  {
    if |s| > 1 {
      var pre, last := s[..|s| - 1], s[|s| - 1];
      assert pre[0] == s[0];
      ValueBounds(pre);
      DecimalOfValue(pre);
      var v := Value(s);
      assert v == Value(pre) * 10 + DigitValue(last);
      assert v >= 10 && v / 10 == Value(pre) && v % 10 == DigitValue(last);
      assert Decimal(v) == Decimal(Value(pre)) + [DigitChar(DigitValue(last))];
      assert s == pre + [last];
    }
  }

  /** Rendering is injective: distinct numbers have distinct numerals. */
  lemma DecimalInjective(m: nat, n: nat)
    requires Decimal(m) == Decimal(n)
    ensures m == n
  {
    ValueOfDecimal(m);
    ValueOfDecimal(n);
  }

  lemma AllDigitsConcat(a: string, b: string)
    requires AllDigits(a) && AllDigits(b)
    ensures AllDigits(a + b)
  {
    assert forall i :: 0 <= i < |a + b| ==> (a + b)[i] == if i < |a| then a[i] else b[i - |a|];
  }

  lemma MulMonotone(x: int, y: int, m: nat)
    requires x <= y
    ensures x * m <= y * m
  {
  }

  lemma ShiftStep(x: int, p: int, y: int, d: int)
    ensures (x * p + y) * 10 + d == x * (p * 10) + (y * 10 + d)
  {
  }

  /** Appending numerals shifts the first by the length of the second. */
  lemma {:induction false} ValueConcat(a: string, b: string)
    requires AllDigits(a) && AllDigits(b)
    ensures AllDigits(a + b)
    ensures Value(a + b) == Value(a) * Pow10(|b|) + Value(b)
  {
    AllDigitsConcat(a, b);
    if b == [] {
      assert a + b == a;
    } else {
      var pre, last := b[..|b| - 1], b[|b| - 1];
      ValueConcat(a, pre);
      assert (a + b)[..|a + b| - 1] == a + pre;
      assert (a + b)[|a + b| - 1] == last;
      assert Value(a + b) == Value(a + pre) * 10 + DigitValue(last);
      assert Value(b) == Value(pre) * 10 + DigitValue(last);
      assert Pow10(|b|) == Pow10(|pre|) * 10;
      ShiftStep(Value(a), Pow10(|pre|), Value(pre), DigitValue(last));
    }
  }

  /** The value of a non-empty numeral split at its first digit. */
  lemma ValueFront(s: string)
    requires AllDigits(s) && |s| > 0
    ensures Value(s) == DigitValue(s[0]) * Pow10(|s| - 1) + Value(s[1..])
  {
    var head, rest := [s[0]], s[1..];
    assert head[..0] == [];
    assert Value(head) == DigitValue(s[0]);
    ValueConcat(head, rest);
    assert head + rest == s;
  }

  /** Lexicographic order on strings, as a keyword sort of a document store compares them. */
  predicate LexLe(a: string, b: string): (r: bool)
    ensures a <= b ==> r
    ensures r && b <= a ==> a == b
  {
    a == [] || (b != [] && (a[0] < b[0] || (a[0] == b[0] && LexLe(a[1..], b[1..]))))
  }

  lemma {:induction false} LexReflexive(a: string)
    ensures LexLe(a, a)
  {
    if a != [] { LexReflexive(a[1..]); }
  }

  lemma {:induction false} LexTotal(a: string, b: string)
    ensures LexLe(a, b) || LexLe(b, a)
  {
    if a != [] && b != [] && a[0] == b[0] { LexTotal(a[1..], b[1..]); }
  }

  lemma {:induction false} LexTransitive(a: string, b: string, c: string)
    requires LexLe(a, b) && LexLe(b, c)
    ensures LexLe(a, c)
  {
    if a != [] && a[0] == b[0] && b[0] == c[0] { LexTransitive(a[1..], b[1..], c[1..]); }
  }

  lemma {:induction false} LexAntisymmetric(a: string, b: string)
    requires LexLe(a, b) && LexLe(b, a)
    ensures a == b
  {
    if a != [] && b != [] {
      LexAntisymmetric(a[1..], b[1..]);
      assert a == [a[0]] + a[1..] && b == [b[0]] + b[1..];
    }
  }

  /** Comparing two strings with equal-length heads compares the heads first. */
  lemma {:induction false} LexPrefix(a: string, x: string, b: string, y: string)
    requires |a| == |b| && LexLe(a + x, b + y)
    ensures LexLe(a, b)
  {
    if a != [] {
      assert (a + x)[0] == a[0] && (b + y)[0] == b[0];
      if a[0] == b[0] {
        assert (a + x)[1..] == a[1..] + x && (b + y)[1..] == b[1..] + y;
        LexPrefix(a[1..], x, b[1..], y);
      }
    }
  }

  /** A smaller leading part outweighs every shorter tail that follows it. */
  lemma ShiftDominates(da: nat, db: nat, p: nat, ra: nat, rb: nat)
    requires da < db && ra < p
    ensures da * p + ra < db * p + rb
  {
    MulMonotone(da + 1, db, p);
    assert (da + 1) * p == da * p + p;
  }

  /** On digit strings of one length, lexicographic order is numeric order. */
  lemma {:induction false} LexIsNumericOnEqualLength(a: string, b: string)
    requires AllDigits(a) && AllDigits(b) && |a| == |b|
    ensures LexLe(a, b) <==> Value(a) <= Value(b)
  {
    if a != [] {
      var p := Pow10(|a| - 1);
      var ra, rb := a[1..], b[1..];
      ValueFront(a);
      ValueFront(b);
      ValueBounds(ra);
      ValueBounds(rb);
      var da, db := DigitValue(a[0]), DigitValue(b[0]);
      if a[0] < b[0] {
        ShiftDominates(da, db, p, Value(ra), Value(rb));
      } else if a[0] > b[0] {
        ShiftDominates(db, da, p, Value(rb), Value(ra));
      } else {
        LexIsNumericOnEqualLength(ra, rb);
      }
    }
  }

  /**
   * The ranking used to find the highest identifier: longer strings rank
   * higher, and strings of equal length rank by their characters.
   */
  predicate RankLe(a: string, b: string)
  {
    |a| < |b| || (|a| == |b| && LexLe(a, b))
  }

  lemma RankTotal(a: string, b: string)
    ensures RankLe(a, b) || RankLe(b, a)
  {
    LexTotal(a, b);
  }

  lemma RankTransitive(a: string, b: string, c: string)
    requires RankLe(a, b) && RankLe(b, c)
    ensures RankLe(a, c)
  {
    if |a| == |b| == |c| { LexTransitive(a, b, c); }
  }

  lemma RankAntisymmetric(a: string, b: string)
    requires RankLe(a, b) && RankLe(b, a)
    ensures a == b
  {
    LexAntisymmetric(a, b);
  }

  /**
   * On canonical numerals (no leading zeros) the length-then-characters
   * ranking coincides with numeric order, in both directions.
   */
  lemma RankIsNumericOrder(a: string, b: string)
    requires Canonical(a) && Canonical(b)
    ensures RankLe(a, b) <==> Value(a) <= Value(b)
  {
    ValueBounds(a);
    ValueBounds(b);
    if |a| < |b| {
      Pow10Monotone(|a|, |b| - 1);
    } else if |b| < |a| {
      Pow10Monotone(|b|, |a| - 1);
    } else {
      LexIsNumericOnEqualLength(a, b);
    }
  }
}
