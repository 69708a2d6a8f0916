// The codec between question ids and on-chain refs: a lowercase UUID in the 8-4-4-4-12 text form
// of section 4 of RFC 9562, against a 32-byte word in hex whose high half is zero.
module Ref {
  import opened Prelude

  type Uuid = string

  // ASCII case folding; no other character folds into the alphabet of a UUID or a ref.
  function Lower(c: char): char {
    if 'A' <= c <= 'Z' then c - 'A' + 'a' else c
  }

  function ToLower(s: string): (t: string)
    ensures |t| == |s|
  {
    seq(|s|, i requires 0 <= i < |s| => Lower(s[i]))
  }

  predicate IsHexDigit(c: char) {
    '0' <= c <= '9' || 'a' <= c <= 'f'
  }

  predicate IsHex(s: string) {
    forall i :: 0 <= i < |s| ==> IsHexDigit(s[i])
  }

  const REF_ZERO_HALF := "00000000000000000000000000000000"

  // ^[0-9a-f]{8}-[0-9a-f]{4}-[0-9a-f]{4}-[0-9a-f]{4}-[0-9a-f]{12}$
  predicate IsUuid(s: string) {
    && |s| == 36
    && s[8] == '-' && s[13] == '-' && s[18] == '-' && s[23] == '-'
    && IsHex(s[..8]) && IsHex(s[9..13]) && IsHex(s[14..18]) && IsHex(s[19..23]) && IsHex(s[24..])
  }

  // ^0x[0-9a-f]{64}$
  predicate IsRef(s: string) {
    |s| == 66 && s[0] == '0' && s[1] == 'x' && IsHex(s[2..])
  }

  // replaceAll("-", "")
  function RemoveDashes(s: string): string {
    if |s| == 0 then ""
    else if s[0] == '-' then RemoveDashes(s[1..])
    else [s[0]] + RemoveDashes(s[1..])
  }

  function UuidToRef(uuid: string): Result<string, string> {
    var lower := ToLower(uuid);
    if IsUuid(lower) then Ok("0x" + REF_ZERO_HALF + RemoveDashes(lower)) else Err("invalid uuid")
  }

  function Dashed(h: string): string
    requires |h| == 32
  {
    h[..8] + "-" + h[8..12] + "-" + h[12..16] + "-" + h[16..20] + "-" + h[20..]
  }

  function RefToUuid(ref: string): Result<Uuid, string> {
    var lower := ToLower(ref);
    if !IsRef(lower) then Err("invalid ref")
    else if lower[2..34] != REF_ZERO_HALF then Err("not a left-padded UUID")
    else Ok(Dashed(lower[34..]))
  }

  function TryRefToUuid(ref: string): Option<Uuid> {
    match RefToUuid(ref)
    case Ok(uuid) => Some(uuid)
    case Err(_) => None
  }

  // A word that a UUID can stand for: 32 bytes of hex whose high 16 bytes are zero.
  predicate IsPaddedUuid(ref: string) {
    IsRef(ref) && ref[2..34] == REF_ZERO_HALF
  }

  // ---------------------------------------------------------------- the bijection

  lemma {:induction false} RemoveDashesConcat(s: string, t: string)
    ensures RemoveDashes(s + t) == RemoveDashes(s) + RemoveDashes(t)
  {
    if |s| == 0 {
      assert s + t == t;
    } else {
      assert (s + t)[1..] == s[1..] + t;
      RemoveDashesConcat(s[1..], t);
    }
  }

  lemma {:induction false} HexHasNoDashes(s: string)
    requires IsHex(s)
    ensures RemoveDashes(s) == s
  {
    if |s| > 0 {
      HexHasNoDashes(s[1..]);
    }
  }

  // A hex group followed by a dash loses just the dash.
  lemma DropGroup(group: string, rest: string)
    requires IsHex(group)
    ensures RemoveDashes(group + "-" + rest) == group + RemoveDashes(rest)
  {
    assert group + "-" + rest == group + ("-" + rest);
    RemoveDashesConcat(group, "-" + rest);
    HexHasNoDashes(group);
    assert ("-" + rest)[1..] == rest;
  }

  lemma UndashedUuid(u: string)
    requires IsUuid(u)
    ensures RemoveDashes(u) == u[..8] + u[9..13] + u[14..18] + u[19..23] + u[24..]
  {
    assert u == u[..8] + "-" + u[9..];
    assert u[9..] == u[9..13] + "-" + u[14..];
    assert u[14..] == u[14..18] + "-" + u[19..];
    assert u[19..] == u[19..23] + "-" + u[24..];
    DropGroup(u[..8], u[9..]);
    DropGroup(u[9..13], u[14..]);
    DropGroup(u[14..18], u[19..]);
    DropGroup(u[19..23], u[24..]);
    HexHasNoDashes(u[24..]);
  }

  lemma HexIsLower(s: string)
    requires forall i :: 0 <= i < |s| ==> IsHexDigit(s[i]) || s[i] == '-' || s[i] == 'x'
    ensures ToLower(s) == s
  {
  }

  lemma UuidAlphabet(u: string, i: nat)
    requires IsUuid(u) && i < 36
    ensures IsHexDigit(u[i]) || u[i] == '-'
  {
    if i < 8 { assert u[i] == u[..8][i]; }
    else if 8 < i < 13 { assert u[i] == u[9..13][i - 9]; }
    else if 13 < i < 18 { assert u[i] == u[14..18][i - 14]; }
    else if 18 < i < 23 { assert u[i] == u[19..23][i - 19]; }
    else if 23 < i { assert u[i] == u[24..][i - 24]; }
  }

  lemma DashedIsUuid(h: string)
    requires |h| == 32 && IsHex(h)
    ensures IsUuid(Dashed(h)) && RemoveDashes(Dashed(h)) == h
  {
    var u := Dashed(h);
    assert u[..8] == h[..8] && u[9..13] == h[8..12] && u[14..18] == h[12..16];
    assert u[19..23] == h[16..20] && u[24..] == h[20..];
    UndashedUuid(u);
  }

  lemma UndashedIsHex(u: string)
    requires IsUuid(u)
    ensures var h := RemoveDashes(u); |h| == 32 && IsHex(h) && Dashed(h) == u
  {
    UndashedUuid(u);
    var h := RemoveDashes(u);
    assert h[..8] == u[..8] && h[8..12] == u[9..13] && h[12..16] == u[14..18];
    assert h[16..20] == u[19..23] && h[20..] == u[24..];
    assert h == h[..8] + h[8..12] + h[12..16] + h[16..20] + h[20..];
  }

  lemma RefText(h: string)
    requires |h| == 32 && IsHex(h)
    ensures var r := "0x" + REF_ZERO_HALF + h;
            IsPaddedUuid(r) && r[34..] == h && ToLower(r) == r
  {
    var r := "0x" + REF_ZERO_HALF + h;
    assert r[2..] == REF_ZERO_HALF + h;
    assert IsHex(REF_ZERO_HALF);
    forall i | 0 <= i < |r|
      ensures IsHexDigit(r[i]) || r[i] == 'x'
    {
      if i >= 2 {
        assert r[i] == r[2..][i - 2];
      }
    }
    HexIsLower(r);
  }

  // Encoding accepts exactly the UUIDs, in any case, yields a padded word, and decodes back.
  lemma UuidRoundTrip(uuid: string)
    ensures UuidToRef(uuid).Ok? <==> IsUuid(ToLower(uuid))
    ensures UuidToRef(uuid).Ok? ==>
              && IsPaddedUuid(UuidToRef(uuid).value)
              && RefToUuid(UuidToRef(uuid).value) == Ok(ToLower(uuid))
  {
    if UuidToRef(uuid).Ok? {
      UndashedIsHex(ToLower(uuid));
      RefText(RemoveDashes(ToLower(uuid)));
    }
  }

  // Decoding accepts exactly the padded words, in any case, yields a UUID, and encodes back.
  lemma RefRoundTrip(ref: string)
    ensures TryRefToUuid(ref).Some? <==> IsPaddedUuid(ToLower(ref))
    ensures TryRefToUuid(ref).Some? ==>
              && IsUuid(TryRefToUuid(ref).value)
              && UuidToRef(TryRefToUuid(ref).value) == Ok(ToLower(ref))
  {
    var lower := ToLower(ref);
    if IsPaddedUuid(lower) {
      var h := lower[34..];
      assert h == lower[2..][32..];
      DashedIsHexTail(lower);
      DashedIsUuid(h);
      var u := Dashed(h);
      forall i | 0 <= i < |u|
        ensures IsHexDigit(u[i]) || u[i] == '-'
      {
        UuidAlphabet(u, i);
      }
      HexIsLower(u);
      assert lower == "0x" + REF_ZERO_HALF + h by {
        assert lower == lower[..2] + lower[2..34] + lower[34..];
      }
    }
  }

  lemma DashedIsHexTail(lower: string)
    requires IsRef(lower)
    ensures IsHex(lower[34..])
  {
    assert lower[34..] == lower[2..][32..];
  }

  // Two refs that answer to the same id are the same word: distinct rows never share a ref.
  lemma SameUuidSameRef(ref1: string, ref2: string)
    requires TryRefToUuid(ref1).Some? && TryRefToUuid(ref1) == TryRefToUuid(ref2)
    ensures ToLower(ref1) == ToLower(ref2)
  {
    RefRoundTrip(ref1);
    RefRoundTrip(ref2);
  }

  // ---------------------------------------------------------------- words as numbers

  function HexDigit(d: nat): char
    requires d < 16
  {
    "0123456789abcdef"[d]
  }

  // The last w hex digits of n.
  function HexDigits(n: nat, w: nat): (s: string)
    ensures |s| == w && IsHex(s)
    decreases w
  {
    if w == 0 then "" else HexDigits(n / 16, w - 1) + [HexDigit(n % 16)]
  }

  function Pow16(k: nat): nat {
    if k == 0 then 1 else 16 * Pow16(k - 1)
  }

  lemma {:induction false} Pow16Add(a: nat, b: nat)
    ensures Pow16(a + b) == Pow16(a) * Pow16(b)
  {
    if a > 0 {
      Pow16Add(a - 1, b);
    }
  }

  // A 32-byte word, two halves of digits, as the log decoder shows it.
  function HexWord(word: nat): (s: string)
    ensures IsRef(s)
  {
    "0x" + HexDigits(word, 2 * |REF_ZERO_HALF|)
  }

  lemma HexDigitInjective(c: nat, d: nat)
    requires c < 16 && d < 16 && HexDigit(c) == HexDigit(d)
    ensures c == d
  {
  }

  lemma {:induction false} HexDigitsInjective(m: nat, n: nat, w: nat)
    requires m < Pow16(w) && n < Pow16(w) && HexDigits(m, w) == HexDigits(n, w)
    ensures m == n
    decreases w
  {
    if w > 0 {
      var s, t := HexDigits(m, w), HexDigits(n, w);
      assert s[..w - 1] == HexDigits(m / 16, w - 1) && t[..w - 1] == HexDigits(n / 16, w - 1);
      HexDigitInjective(m % 16, n % 16);
      HexDigitsInjective(m / 16, n / 16, w - 1);
    }
  }

  lemma SameUuidSameWord(m: nat, n: nat)
    requires m < Pow16(2 * |REF_ZERO_HALF|) && n < Pow16(2 * |REF_ZERO_HALF|)
    requires TryRefToUuid(HexWord(m)).Some? && TryRefToUuid(HexWord(m)) == TryRefToUuid(HexWord(n))
    ensures m == n
  {
    SameUuidSameRef(HexWord(m), HexWord(n));
    WordIsLower(m);
    WordIsLower(n);
    var w := 2 * |REF_ZERO_HALF|;
    assert HexWord(m)[2..] == HexDigits(m, w) && HexWord(n)[2..] == HexDigits(n, w);
    HexDigitsInjective(m, n, w);
  }

  lemma WordIsLower(word: nat)
    ensures ToLower(HexWord(word)) == HexWord(word)
  {
    HexIsLower(HexWord(word));
  }

  // ---------------------------------------------------------------- what the texts mean

  predicate IsDashPlace(i: int) {
    i == 8 || i == 13 || i == 18 || i == 23
  }

  // A UUID text, character by character: 36 of them, dashes after 8, 12, 16 and 20 digits.
  lemma UuidPattern(s: string)
    ensures IsUuid(s)
            <==> |s| == 36 && forall i :: 0 <= i < 36 ==> if IsDashPlace(i) then s[i] == '-' else IsHexDigit(s[i])
  {
    if IsUuid(s) {
      forall i | 0 <= i < 36 && !IsDashPlace(i)
        ensures IsHexDigit(s[i])
      {
        GroupDigit(s, i);
      }
    }
  }

  lemma GroupDigit(u: string, i: nat)
    requires IsUuid(u) && i < 36 && !IsDashPlace(i)
    ensures IsHexDigit(u[i])
  {
    if i < 8 { assert u[i] == u[..8][i]; }
    else if i < 13 { assert u[i] == u[9..13][i - 9]; }
    else if i < 18 { assert u[i] == u[14..18][i - 14]; }
    else if i < 23 { assert u[i] == u[19..23][i - 19]; }
    else { assert u[i] == u[24..][i - 24]; }
  }

  function DigitValue(c: char): nat
    requires IsHexDigit(c)
  {
    if c <= '9' then (c - '0') as nat else (c - 'a') as nat + 10
  }

  // The number a string of hex digits denotes.
  function HexValue(s: string): nat
    requires IsHex(s)
  {
    if |s| == 0 then 0 else 16 * HexValue(s[..|s| - 1]) + DigitValue(s[|s| - 1])
  }

  lemma DigitOfValue(c: char)
    requires IsHexDigit(c)
    ensures DigitValue(c) < 16 && HexDigit(DigitValue(c)) == c
  {
  }

  // Written with as many digits, the number a string denotes is that string.
  lemma {:induction false} HexOfValue(s: string)
    requires IsHex(s)
    ensures HexValue(s) < Pow16(|s|) && HexDigits(HexValue(s), |s|) == s
  {
    if |s| > 0 {
      var front, d := s[..|s| - 1], DigitValue(s[|s| - 1]);
      HexOfValue(front);
      DigitOfValue(s[|s| - 1]);
      assert HexValue(s) / 16 == HexValue(front) && HexValue(s) % 16 == d;
      assert s == front + [s[|s| - 1]];
    }
  }

  lemma {:induction false} HexOfZeros(k: nat, s: string)
    requires IsHex(s) && |s| >= k && forall i :: 0 <= i < k ==> s[i] == '0'
    ensures HexValue(s) == HexValue(s[k..])
    decreases |s|
  {
    if |s| == k && k > 0 {
      HexOfZeros(k - 1, s[..|s| - 1]);
      assert s[..|s| - 1][k - 1..] == "" && s[k..] == "";
    } else if |s| > k {
      HexOfZeros(k, s[..|s| - 1]);
      assert s[..|s| - 1][k..] == s[k..][..|s| - k - 1];
    } else {
      assert s[0..] == s;
    }
  }

  // A half of zeros before 32 digits denotes what the digits do, and is the text of that word.
  lemma PaddedDigits(h: string)
    requires |h| == 32 && IsHex(h)
    ensures HexWord(HexValue(h)) == "0x" + REF_ZERO_HALF + h
  {
    var digits := REF_ZERO_HALF + h;
    assert IsHex(digits) && digits[32..] == h;
    assert forall i :: 0 <= i < 32 ==> digits[i] == '0';
    HexOfZeros(32, digits);
    HexOfValue(digits);
    assert "0x" + REF_ZERO_HALF + h == "0x" + digits;
  }

  // The word an asker writes for a UUID is the number its 32 digits denote, below 2^128; and the event
  // with that word answers to that UUID.
  lemma UuidIsWord(uuid: string) returns (word: nat)
    requires IsUuid(ToLower(uuid))
    ensures IsHex(RemoveDashes(ToLower(uuid))) && word == HexValue(RemoveDashes(ToLower(uuid)))
    ensures word < 0x1_0000_0000_0000_0000_0000_0000_0000_0000
    ensures UuidToRef(uuid) == Ok(HexWord(word)) && TryRefToUuid(HexWord(word)) == Some(ToLower(uuid))
  {
    var h := RemoveDashes(ToLower(uuid));
    UndashedIsHex(ToLower(uuid));
    word := HexValue(h);
    HexOfValue(h);
    HalfFits();
    PaddedDigits(h);
    UuidRoundTrip(uuid);
  }

  lemma HalfFits()
    ensures Pow16(32) == 0x1_0000_0000_0000_0000_0000_0000_0000_0000
  {
    assert Pow16(8) == 0x1_0000_0000;
    Pow16Add(8, 8);
    Pow16Add(16, 16);
  }

  // Case folding, letter by letter.
  lemma LowerLetters(i: nat)
    requires i < 26
    ensures Lower("ABCDEFGHIJKLMNOPQRSTUVWXYZ"[i]) == "abcdefghijklmnopqrstuvwxyz"[i]
  {
  }
}
