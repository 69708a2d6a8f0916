// Decimal numerals: the text of amounts, prices and counters.
module Decimal {

  function DigitChar(d: nat): char
    requires d < 10
  {
    "0123456789"[d]
  }

  predicate IsDigit(c: char) {
    '0' <= c <= '9'
  }

  function DigitOf(c: char): nat
    requires IsDigit(c)
  {
    (c - '0') as nat
  }

  predicate IsDigits(s: string) {
    forall i :: 0 <= i < |s| ==> IsDigit(s[i])
  }

  // The value of a digit string; leading zeros do not matter.
  function Value(s: string): nat
    requires IsDigits(s)
  {
    if |s| == 0 then 0 else Value(s[..|s| - 1]) * 10 + DigitOf(s[|s| - 1])
  }

  // The shortest numeral of n.
  function Print(n: nat): string {
    if n < 10 then [DigitChar(n)] else Print(n / 10) + [DigitChar(n % 10)]
  }

  function Pow10(k: nat): nat {
    if k == 0 then 1 else 10 * Pow10(k - 1)
  }

  function Zeros(k: nat): (s: string)
    ensures |s| == k
    ensures forall i :: 0 <= i < k ==> s[i] == '0'
  {
    if k == 0 then "" else Zeros(k - 1) + "0"
  }

  // padStart(w, "0")
  function PadStart(s: string, w: nat): string {
    if |s| < w then Zeros(w - |s|) + s else s
  }

  // No leading zero, except in "0" itself.
  predicate IsShortest(s: string) {
    IsDigits(s) && |s| > 0 && (|s| > 1 ==> s[0] != '0')
  }

  lemma ValueAppend(s: string, c: char)
    requires IsDigits(s) && IsDigit(c)
    ensures IsDigits(s + [c]) && Value(s + [c]) == Value(s) * 10 + DigitOf(c)
  {
    assert (s + [c])[..|s|] == s;
  }

  lemma {:induction false} PrintIsShortest(n: nat)
    ensures IsShortest(Print(n)) && (Print(n)[0] == '0' ==> n == 0)
    ensures Value(Print(n)) == n
  {
    if n < 10 {
      ValueAppend("", DigitChar(n));
      assert "" + [DigitChar(n)] == [DigitChar(n)];
    } else {
      PrintIsShortest(n / 10);
      ValueAppend(Print(n / 10), DigitChar(n % 10));
    }
  }

  lemma {:induction false} PositiveValue(s: string)
    requires IsDigits(s) && |s| > 0 && s[0] != '0'
    ensures Value(s) > 0
  {
    if |s| > 1 {
      PositiveValue(s[..|s| - 1]);
    }
  }

  lemma PrintDigit(c: char)
    requires IsDigit(c)
    ensures Value([c]) == DigitOf(c) && Print(DigitOf(c)) == [c]
  {
    assert [c][..0] == "";
  }

  lemma PrintAppend(n: nat, c: char)
    requires n > 0 && IsDigit(c)
    ensures Print(n * 10 + DigitOf(c)) == Print(n) + [c]
  {
    assert (n * 10 + DigitOf(c)) / 10 == n && (n * 10 + DigitOf(c)) % 10 == DigitOf(c);
  }

  lemma PrintLonger(front: string, c: char)
    requires IsDigits(front) && IsDigit(c) && Value(front) > 0 && Print(Value(front)) == front
    ensures IsDigits(front + [c]) && Print(Value(front + [c])) == front + [c]
  {
    ValueAppend(front, c);
    PrintAppend(Value(front), c);
  }

  // A shortest numeral is the one printed for its value.
  lemma {:induction false} PrintOfValue(s: string)
    requires IsShortest(s)
    ensures Print(Value(s)) == s
  {
    var front, c := s[..|s| - 1], s[|s| - 1];
    if |s| == 1 {
      assert s == [c];
      PrintDigit(c);
    } else {
      assert s == front + [c];
      PositiveValue(front);
      PrintOfValue(front);
      PrintLonger(front, c);
    }
  }

  lemma PrintInjective(m: nat, n: nat)
    requires Print(m) == Print(n)
    ensures m == n
  {
    PrintIsShortest(m);
    PrintIsShortest(n);
  }

  lemma {:induction false} ValueBound(s: string)
    requires IsDigits(s)
    ensures Value(s) < Pow10(|s|)
  {
    if |s| > 0 {
      ValueBound(s[..|s| - 1]);
    }
  }

  lemma {:induction false} PrintLength(n: nat, k: nat)
    requires n < Pow10(k) && k > 0
    ensures |Print(n)| <= k
    decreases k
  {
    if n >= 10 {
      assert Pow10(0) == 1;
      PrintLength(n / 10, k - 1);
    }
  }

  // Leading zeros leave the value alone.
  lemma {:induction false} LeadingZeros(k: nat, s: string)
    requires IsDigits(s)
    ensures IsDigits(Zeros(k) + s) && Value(Zeros(k) + s) == Value(s)
    decreases k + |s|
  {
    if |s| > 0 {
      var front := s[..|s| - 1];
      LeadingZeros(k, front);
      assert Zeros(k) + s == (Zeros(k) + front) + [s[|s| - 1]];
      ValueAppend(Zeros(k) + front, s[|s| - 1]);
    } else {
      assert Zeros(k) + s == Zeros(k);
      if k > 0 {
        LeadingZeros(k - 1, "");
        assert Zeros(k - 1) + "" == Zeros(k - 1);
        ValueAppend(Zeros(k - 1), '0');
      }
    }
  }

  lemma {:induction false} SameWidthSameValue(s: string, t: string)
    requires IsDigits(s) && IsDigits(t) && |s| == |t| && Value(s) == Value(t)
    ensures s == t
  {
    if |s| > 0 {
      SameWidthSameValue(s[..|s| - 1], t[..|t| - 1]);
      assert s == s[..|s| - 1] + [s[|s| - 1]];
      assert t == t[..|t| - 1] + [t[|t| - 1]];
    }
  }

  lemma PadKeepsValue(s: string, w: nat)
    requires IsDigits(s) && |s| <= w
    ensures |PadStart(s, w)| == w && IsDigits(PadStart(s, w)) && Value(PadStart(s, w)) == Value(s)
  {
    if |s| < w {
      LeadingZeros(w - |s|, s);
    }
  }

  // Padding the shortest numeral of a small enough number gives w digits of the same value.
  lemma PadValue(n: nat, w: nat)
    requires n < Pow10(w) && w > 0
    ensures var s := PadStart(Print(n), w); |s| == w && IsDigits(s) && Value(s) == n
  {
    PrintLength(n, w);
    PrintIsShortest(n);
    PadKeepsValue(Print(n), w);
  }
}
