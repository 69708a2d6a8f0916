// The USDC text codec: base-unit integers against decimal display text with six decimals.
module Usdc {
  import opened Prelude
  import opened Decimal

  const SCALE := 1_000_000
  const USDC_DECIMALS := 6
  const UINT128_MAX := 0xFFFF_FFFF_FFFF_FFFF_FFFF_FFFF_FFFF_FFFF

  predicate IsBaseUnits(s: string) {
    |s| > 0 && IsDigits(s)
  }

  // The column check on stored amounts.
  predicate ColumnAccepts(s: string) {
    1 <= |s| <= 39 && IsDigits(s)
  }

  // replace(/0+$/, "")
  function TrimZeros(s: string): (t: string)
    ensures t <= s && (|t| > 0 ==> t[|t| - 1] != '0')
    ensures forall i :: |t| <= i < |s| ==> s[i] == '0'
  {
    if |s| > 0 && s[|s| - 1] == '0' then TrimZeros(s[..|s| - 1]) else s
  }

  function FormatUsdc(base: string): string {
    if !IsBaseUnits(base) then "0"
    else
      var n := Value(base);
      var whole, frac := n / SCALE, n % SCALE;
      if frac == 0 then Print(whole)
      else Print(whole) + "." + TrimZeros(PadStart(Print(frac), USDC_DECIMALS))
  }

  // The white space and line terminators that trim removes.
  predicate IsSpace(c: char) {
    || '\t' <= c <= '\r' || c == ' ' || c == '\U{A0}' || c == '\U{1680}' || '\U{2000}' <= c <= '\U{200A}'
    || c == '\U{2028}' || c == '\U{2029}' || c == '\U{202F}' || c == '\U{205F}' || c == '\U{3000}' || c == '\U{FEFF}'
  }

  function Trim(s: string): string {
    if |s| > 0 && IsSpace(s[0]) then Trim(s[1..])
    else if |s| > 0 && IsSpace(s[|s| - 1]) then Trim(s[..|s| - 1])
    else s
  }

  // Where the first decimal point is, or the length when there is none.
  function Point(s: string): (i: nat)
    ensures i <= |s|
    ensures forall j :: 0 <= j < i ==> s[j] != '.'
    ensures i < |s| ==> s[i] == '.'
  {
    if |s| == 0 || s[0] == '.' then 0 else 1 + Point(s[1..])
  }

  function Whole(s: string): string {
    s[..Point(s)]
  }

  function Fraction(s: string): string {
    if Point(s) < |s| then s[Point(s) + 1..] else ""
  }

  // ^[0-9]+(\.[0-9]{1,6})?$
  predicate IsDisplay(s: string) {
    && |Whole(s)| > 0 && IsDigits(Whole(s)) && IsDigits(Fraction(s))
    && (Point(s) < |s| ==> 1 <= |Fraction(s)| <= USDC_DECIMALS)
  }

  function ParseUsdc(display: string): Option<string> {
    var s := Trim(display);
    if !IsDisplay(s) then None
    else Some(Print(Value(Whole(s)) * SCALE + Value(FracPadded(s))))
  }

  function FracPadded(s: string): (f: string)
    ensures |f| == USDC_DECIMALS
    ensures IsDigits(Fraction(s)) ==> IsDigits(f)
  {
    (Fraction(s) + "000000")[..USDC_DECIMALS]
  }

  // ---------------------------------------------------------------- canonical display text

  function StripLeadingZeros(s: string): string {
    if |s| > 1 && s[0] == '0' then StripLeadingZeros(s[1..]) else s
  }

  // A display string with leading zeros of its whole part and trailing zeros of its fraction removed.
  function Canonical(s: string): string {
    var fraction := TrimZeros(Fraction(s));
    StripLeadingZeros(Whole(s)) + if fraction == "" then "" else "." + fraction
  }

  predicate IsCanonical(s: string) {
    && IsDisplay(s) && IsShortest(Whole(s))
    && (Point(s) < |s| ==> s[|s| - 1] != '0')
  }

  // ---------------------------------------------------------------- lemmas

  lemma NothingToTrim(s: string)
    requires forall i :: 0 <= i < |s| ==> IsDigit(s[i]) || s[i] == '.'
    ensures Trim(s) == s
  {
  }

  lemma {:induction false} SplitAtPoint(w: string, f: string)
    requires IsDigits(w)
    ensures Point(w) == |w| && Whole(w) == w && Fraction(w) == ""
    ensures var s := w + "." + f; Point(s) == |w| && Whole(s) == w && Fraction(s) == f
  {
    var s := w + "." + f;
    assert s[|w|] == '.';
    assert s[..|w|] == w;
    assert s[|w| + 1..] == f;
  }

  lemma AllZeros(s: string, k: nat)
    requires |s| == k && forall i :: 0 <= i < k ==> s[i] == '0'
    ensures s == Zeros(k)
  {
  }

  // Padding a trimmed fraction back to six digits restores it.
  lemma PadTrimmed(s: string)
    requires |s| == USDC_DECIMALS
    ensures (TrimZeros(s) + "000000")[..USDC_DECIMALS] == s
  {
    var t := TrimZeros(s);
    assert s == t + s[|t|..];
  }

  lemma {:induction false} ZeroMeansTrimmedAway(s: string)
    requires IsDigits(s)
    ensures Value(s) == 0 <==> TrimZeros(s) == ""
  {
    if |s| > 0 {
      ZeroMeansTrimmedAway(s[..|s| - 1]);
    }
  }

  lemma {:induction false} TrimIgnoresZeros(s: string, k: nat)
    ensures TrimZeros(s + Zeros(k)) == TrimZeros(s)
  {
    if k == 0 {
      assert s + Zeros(0) == s;
    } else {
      TrimIgnoresZeros(s, k - 1);
      assert (s + Zeros(k))[..|s| + k - 1] == s + Zeros(k - 1);
    }
  }

  lemma {:induction false} StripKeepsValue(s: string)
    requires IsDigits(s) && |s| > 0
    ensures IsShortest(StripLeadingZeros(s)) && Value(StripLeadingZeros(s)) == Value(s)
  {
    if |s| > 1 && s[0] == '0' {
      StripKeepsValue(s[1..]);
      LeadingZeros(1, s[1..]);
      assert s == Zeros(1) + s[1..];
    }
  }

  // A whole part and a six-digit fraction as display text.
  function Join(w: string, f: string): string {
    if TrimZeros(f) == "" then w else w + "." + TrimZeros(f)
  }

  lemma JoinSplits(w: string, f: string)
    requires IsDigits(w) && |f| == USDC_DECIMALS
    ensures var d := Join(w, f);
            && Whole(d) == w && Fraction(d) == TrimZeros(f) && FracPadded(d) == f
            && (Point(d) < |d| <==> TrimZeros(f) != "")
  {
    PadTrimmed(f);
    SplitAtPoint(w, TrimZeros(f));
  }

  lemma JoinShape(w: string, f: string)
    requires IsShortest(w) && IsDigits(f) && |f| == USDC_DECIMALS
    ensures var d := Join(w, f);
            && IsCanonical(d) && Trim(d) == d && Whole(d) == w
            && FracPadded(d) == f
  {
    JoinSplits(w, f);
    NothingToTrim(Join(w, f));
  }

  // w and f are the texts of n's whole dollars and of its six-digit fraction.
  predicate Splits(n: nat, w: string, f: string) {
    && IsShortest(w) && Value(w) == n / SCALE
    && IsDigits(f) && |f| == USDC_DECIMALS && Value(f) == n % SCALE
  }

  lemma FormatIsJoin(base: string, w: string, f: string)
    requires IsBaseUnits(base) && Splits(Value(base), w, f)
    ensures FormatUsdc(base) == Join(w, f)
  {
    var frac := Value(base) % SCALE;
    assert Pow10(USDC_DECIMALS) == SCALE;
    PadValue(frac, USDC_DECIMALS);
    SameWidthSameValue(PadStart(Print(frac), USDC_DECIMALS), f);
    ZeroMeansTrimmedAway(f);
    PrintOfValue(w);
  }

  lemma ParseOfJoin(n: nat, w: string, f: string)
    requires Splits(n, w, f)
    ensures ParseUsdc(Join(w, f)) == Some(Print(n))
  {
    JoinShape(w, f);
    assert Value(w) * SCALE + Value(f) == n;
  }

  lemma SplitExists(n: nat) returns (w: string, f: string)
    ensures Splits(n, w, f)
  {
    w, f := Print(n / SCALE), PadStart(Print(n % SCALE), USDC_DECIMALS);
    assert Pow10(USDC_DECIMALS) == SCALE;
    PadValue(n % SCALE, USDC_DECIMALS);
    PrintIsShortest(n / SCALE);
  }

  // For every base-unit text, the formatted text is canonical and parsing it gives back the
  // shortest text of the same number.
  lemma FormatThenParse(base: string)
    requires IsBaseUnits(base)
    ensures IsCanonical(FormatUsdc(base))
    ensures ParseUsdc(FormatUsdc(base)) == Some(Print(Value(base)))
  {
    var w, f := SplitExists(Value(base));
    FormatIsJoin(base, w, f);
    JoinShape(w, f);
    ParseOfJoin(Value(base), w, f);
  }

  lemma ParseValue(s: string)
    requires IsDisplay(s)
    ensures Value(FracPadded(s)) < SCALE
    ensures TrimZeros(FracPadded(s)) == TrimZeros(Fraction(s))
  {
    var f := FracPadded(s);
    ValueBound(f);
    assert Pow10(USDC_DECIMALS) == SCALE;
    var k := USDC_DECIMALS - |Fraction(s)|;
    AllZeros(f[|Fraction(s)|..], k);
    assert f == Fraction(s) + Zeros(k);
    TrimIgnoresZeros(Fraction(s), k);
  }

  lemma Decompose(whole: nat, frac: nat)
    requires frac < SCALE
    ensures (whole * SCALE + frac) / SCALE == whole && (whole * SCALE + frac) % SCALE == frac
  {
  }

  // A display splits its value into a whole part without leading zeros and six decimals.
  lemma DisplaySplits(s: string)
    requires IsDisplay(s)
    ensures Splits(Value(Whole(s)) * SCALE + Value(FracPadded(s)), StripLeadingZeros(Whole(s)), FracPadded(s))
  {
    ParseValue(s);
    StripKeepsValue(Whole(s));
    Decompose(Value(Whole(s)), Value(FracPadded(s)));
  }

  lemma JoinIsCanonical(s: string)
    requires IsDisplay(s)
    ensures Join(StripLeadingZeros(Whole(s)), FracPadded(s)) == Canonical(s)
  {
    ParseValue(s);
  }

  lemma FormatOfDisplay(s: string, n: nat)
    requires IsDisplay(s) && n == Value(Whole(s)) * SCALE + Value(FracPadded(s))
    ensures FormatUsdc(Print(n)) == Join(StripLeadingZeros(Whole(s)), FracPadded(s))
  {
    DisplaySplits(s);
    PrintIsShortest(n);
    FormatIsJoin(Print(n), StripLeadingZeros(Whole(s)), FracPadded(s));
  }

  // For every accepted display text, formatting what was parsed gives the text's canonical form.
  lemma ParseThenFormat(display: string)
    requires ParseUsdc(display).Some?
    ensures FormatUsdc(ParseUsdc(display).value) == Canonical(Trim(display))
  {
    var s := Trim(display);
    FormatOfDisplay(s, Value(Whole(s)) * SCALE + Value(FracPadded(s)));
    JoinIsCanonical(s);
  }

  lemma CanonicalIsFixed(s: string)
    requires IsCanonical(s)
    ensures Canonical(s) == s
  {
    assert Point(s) < |s| ==> s == Whole(s) + "." + Fraction(s);
  }

  // Exactly the canonical texts survive parsing and formatting unchanged: with FormatThenParse, the
  // two functions are mutually inverse between natural numbers and canonical texts.
  lemma CanonicalRoundTrip(s: string)
    ensures IsCanonical(s) <==> ParseUsdc(s).Some? && FormatUsdc(ParseUsdc(s).value) == s
  {
    if IsCanonical(s) {
      assert Point(s) < |s| ==> s == Whole(s) + "." + Fraction(s);
      NothingToTrim(s);
      ParseThenFormat(s);
      CanonicalIsFixed(s);
    } else if ParseUsdc(s).Some? {
      PrintIsShortest(Value(Whole(Trim(s))) * SCALE + Value(FracPadded(Trim(s))));
      FormatThenParse(ParseUsdc(s).value);
    }
  }

  // Every on-chain amount prints in at most 39 digits, so the stored text passes the column check.
  lemma AmountsFitTheirColumn(n: nat)
    requires n <= UINT128_MAX
    ensures ColumnAccepts(Print(n))
  {
    assert Pow10(13) == 10_000_000_000_000;
    assert Pow10(26) == 100_000_000_000_000_000_000_000_000;
    assert UINT128_MAX < Pow10(39);
    PrintIsShortest(n);
    PrintLength(n, 39);
  }

  // ---------------------------------------------------------------- what the numbers mean

  lemma {:induction false} ValueConcat(s: string, t: string)
    requires IsDigits(s) && IsDigits(t)
    ensures IsDigits(s + t) && Value(s + t) == Value(s) * Pow10(|t|) + Value(t)
  {
    if |t| == 0 {
      assert s + t == s;
    } else {
      ValueConcat(s, t[..|t| - 1]);
      assert (s + t)[..|s + t| - 1] == s + t[..|t| - 1];
      ValueShifts(Value(s), Pow10(|t| - 1), Value(t[..|t| - 1]), DigitOf(t[|t| - 1]));
    }
  }

  lemma ValueShifts(a: nat, p: nat, b: nat, d: nat)
    ensures (a * p + b) * 10 + d == a * (10 * p) + (b * 10 + d)
  {
  }

  lemma {:induction false} ValueOfZeros(k: nat)
    ensures IsDigits(Zeros(k)) && Value(Zeros(k)) == 0
  {
    LeadingZeros(k, "");
    assert Zeros(k) + "" == Zeros(k);
  }

  lemma PaddedFraction(s: string)
    requires IsDisplay(s)
    ensures |Fraction(s)| <= 6 && FracPadded(s) == Fraction(s) + Zeros(6 - |Fraction(s)|)
  {
    AllZeros(FracPadded(s)[|Fraction(s)|..], 6 - |Fraction(s)|);
  }

  lemma ZerosScale(f: string, k: nat)
    requires IsDigits(f) && |f| + k == 6
    ensures IsDigits(f + Zeros(k)) && Value(f + Zeros(k)) * Pow10(|f|) == Value(f) * 1_000_000
  {
    ValueOfZeros(k);
    ValueConcat(f, Zeros(k));
    PowersJoin(|f|, k);
    Reorder(Value(f), Pow10(k), Pow10(|f|));
  }

  // The fraction padded to six digits, in millionths.
  lemma FractionValue(s: string)
    requires IsDisplay(s)
    ensures Value(FracPadded(s)) * Pow10(|Fraction(s)|) == Value(Fraction(s)) * 1_000_000
  {
    PaddedFraction(s);
    ZerosScale(Fraction(s), 6 - |Fraction(s)|);
  }

  lemma {:induction false} PowersJoin(a: nat, b: nat)
    requires a + b == 6
    ensures Pow10(a) * Pow10(b) == 1_000_000
  {
    assert Pow10(0) == 1 && Pow10(1) == 10 && Pow10(2) == 100 && Pow10(3) == 1000;
    assert Pow10(4) == 10_000 && Pow10(5) == 100_000 && Pow10(6) == 1_000_000;
  }

  lemma Reorder(v: nat, p: nat, q: nat)
    requires q * p == 1_000_000
    ensures (v * p + 0) * q == v * 1_000_000
  {
    assert (v * p) * q == v * (q * p);
  }

  lemma Scaled(w: nat, padded: nat, f: nat, p: nat)
    requires padded * p == f * 1_000_000
    ensures (w * 1_000_000 + padded) * p == (w * p + f) * 1_000_000
  {
    assert (w * 1_000_000) * p == (w * p) * 1_000_000;
  }

  lemma DisplayValue(s: string)
    requires IsDisplay(s)
    ensures IsDigits(Whole(s) + Fraction(s))
    ensures (Value(Whole(s)) * SCALE + Value(FracPadded(s))) * Pow10(|Fraction(s)|)
         == Value(Whole(s) + Fraction(s)) * 1_000_000
  {
    ValueConcat(Whole(s), Fraction(s));
    FractionValue(s);
    Scaled(Value(Whole(s)), Value(FracPadded(s)), Value(Fraction(s)), Pow10(|Fraction(s)|));
  }

  // A text is accepted exactly if, without the space around it, it is digits with an optional fraction of
  // one to six digits; it then stands for a million base units a dollar.
  lemma ParsedValue(display: string)
    ensures ParseUsdc(display).Some? <==> IsDisplay(Trim(display))
    ensures ParseUsdc(display).Some? ==>
              var s, base := Trim(display), ParseUsdc(display).value;
              && IsShortest(base) && IsDigits(Whole(s) + Fraction(s))
              && Value(base) * Pow10(|Fraction(s)|) == Value(Whole(s) + Fraction(s)) * 1_000_000
  {
    var s := Trim(display);
    if IsDisplay(s) {
      PrintIsShortest(Value(Whole(s)) * SCALE + Value(FracPadded(s)));
      DisplayValue(s);
    }
  }

  // Digits up to p, where the text ends or a point is followed by one to six digits.
  predicate PointAt(s: string, p: nat) {
    && 1 <= p <= |s| && (p == |s| || (s[p] == '.' && 1 <= |s| - p - 1 <= 6))
    && forall i :: 0 <= i < |s| && i != p ==> '0' <= s[i] <= '9'
  }

  lemma {:induction false} PointIsAt(s: string, p: nat)
    requires p <= |s| && (p == |s| || s[p] == '.') && forall i :: 0 <= i < p ==> '0' <= s[i] <= '9'
    ensures Point(s) == p
  {
    assert p < |s| ==> Point(s) <= p;
  }

  lemma PatternIsDisplay(s: string, p: nat)
    requires PointAt(s, p)
    ensures IsDisplay(s)
  {
    PointIsAt(s, p);
    assert IsDigits(s[..p]);
    if p < |s| {
      assert IsDigits(s[p + 1..]);
    }
  }

  lemma DisplayHasPattern(s: string)
    requires IsDisplay(s)
    ensures PointAt(s, Point(s))
  {
    assert forall i :: 0 <= i < Point(s) ==> s[i] == Whole(s)[i];
    assert forall i :: Point(s) < i < |s| ==> s[i] == Fraction(s)[i - Point(s) - 1];
  }

  // An accepted text, character by character.
  lemma DisplayPattern(s: string)
    ensures IsDisplay(s) <==> exists p :: PointAt(s, p)
  {
    if p :| PointAt(s, p) {
      PatternIsDisplay(s, p);
    }
    if IsDisplay(s) {
      DisplayHasPattern(s);
    }
  }

  // What is left of s from i to j, with all around it space, and no space at its own ends.
  predicate TrimmedTo(s: string, t: string, i: nat, j: nat) {
    && i <= j <= |s| && t == s[i..j]
    && (forall k :: 0 <= k < |s| && (k < i || j <= k) ==> IsSpace(s[k]))
    && (i < j ==> !IsSpace(s[i]) && !IsSpace(s[j - 1]))
  }

  // White space and line terminators, sections 12.2 and 12.3 of ECMA-262.
  const SPACES := "\t\n\U{0B}\U{0C}\r \U{A0}\U{1680}\U{2000}\U{2001}\U{2002}\U{2003}\U{2004}\U{2005}\U{2006}\U{2007}"
               + "\U{2008}\U{2009}\U{200A}\U{2028}\U{2029}\U{202F}\U{205F}\U{3000}\U{FEFF}"

  lemma SpaceIsListed(c: char)
    ensures IsSpace(c) <==> c in SPACES
  {
  }

  // Trimming takes away space at both ends, and all of it.
  lemma {:induction false} TrimTakesSpace(s: string) returns (i: nat, j: nat)
    ensures TrimmedTo(s, Trim(s), i, j)
    decreases |s|
  {
    if |s| > 0 && IsSpace(s[0]) {
      i, j := TrimTakesSpace(s[1..]);
      TrimmedFront(s, Trim(s[1..]), i, j);
      i, j := i + 1, j + 1;
    } else if |s| > 0 && IsSpace(s[|s| - 1]) {
      i, j := TrimTakesSpace(s[..|s| - 1]);
      TrimmedBack(s, Trim(s[..|s| - 1]), i, j);
    } else {
      i, j := 0, |s|;
    }
  }

  lemma TrimmedFront(s: string, t: string, i: nat, j: nat)
    requires |s| > 0 && IsSpace(s[0]) && TrimmedTo(s[1..], t, i, j)
    ensures TrimmedTo(s, t, i + 1, j + 1)
  {
    assert forall k :: 0 < k < |s| ==> s[k] == s[1..][k - 1];
    assert s[1..][i..j] == s[i + 1..j + 1];
  }

  lemma TrimmedBack(s: string, t: string, i: nat, j: nat)
    requires |s| > 0 && IsSpace(s[|s| - 1]) && TrimmedTo(s[..|s| - 1], t, i, j)
    ensures TrimmedTo(s, t, i, j)
  {
    assert forall k :: 0 <= k < |s| - 1 ==> s[k] == s[..|s| - 1][k];
    assert s[..|s| - 1][i..j] == s[i..j];
  }

  // Text that is not digits formats as "0".
  lemma MalformedIsZero(base: string)
    requires base == "" || exists i :: 0 <= i < |base| && !('0' <= base[i] <= '9')
    ensures FormatUsdc(base) == "0"
  {
  }
}
