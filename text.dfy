/**
 The pieces of JavaScript string and number behaviour that the connector leans on:
 decimal digit strings and their values, zero-padded and canonical decimal
 formatting, `String.prototype.substring` with its clamping, and
 `String.prototype.includes` as a left-to-right substring scan.
 */
module Text {

  predicate IsDigit(c: char) {
    '0' <= c <= '9'
  }

  predicate AllDigits(s: string) {
    forall i :: 0 <= i < |s| ==> IsDigit(s[i])
  }

  function DigitValue(c: char): (d: nat)
    requires IsDigit(c)
    ensures d < 10
  {
    c as int - '0' as int
  }

  function DigitChar(d: nat): (c: char)
    requires d < 10
    ensures IsDigit(c) && DigitValue(c) == d
  {
    ('0' as int + d) as char
  }

  function Pow10(n: nat): (p: nat)
    ensures p >= 1
  {
    if n == 0 then 1 else 10 * Pow10(n - 1)
  }

  /** The number a string of decimal digits denotes. The empty string denotes 0,
      as JavaScript's conversion of "" to a number does. */
  function ParseDigits(s: string): (n: nat)
    requires AllDigits(s)
    ensures n < Pow10(|s|)
    decreases |s|
  {
    if s == [] then 0 else ParseDigits(s[..|s| - 1]) * 10 + DigitValue(s[|s| - 1])
  }

  /** `n` written in exactly `w` decimal digits, zero-padded on the left. */
  function PadNat(n: nat, w: nat): (s: string)
    ensures |s| == w && AllDigits(s)
    ensures n < Pow10(w) ==> ParseDigits(s) == n
  {
    if w == 0 then []
    else
      var init := PadNat(n / 10, w - 1);
      var s := init + [DigitChar(n % 10)];
      assert s[..|s| - 1] == init;
      s
  }

  /** Padding the value of a digit string to its own width gives the string back. */
  lemma {:induction false} PadParsed(ds: string)
    requires AllDigits(ds)
    ensures PadNat(ParseDigits(ds), |ds|) == ds
  {
    if ds != [] {
      var init, last := ds[..|ds| - 1], ds[|ds| - 1];
      var p, d := ParseDigits(init), DigitValue(last);
      PadParsed(init);
      PadLastDigit(p, d, |init|);
      DigitRoundTrip(last);
      assert ds == init + [last];
    }
  }

  /** The value of a concatenation of digit strings: the first part shifted left by
      the length of the second. */
  lemma {:induction false} ParseAppend(a: string, b: string)
    requires AllDigits(a) && AllDigits(b)
    ensures AllDigits(a + b)
    ensures ParseDigits(a + b) == ParseDigits(a) * Pow10(|b|) + ParseDigits(b)
    decreases |b|
  {
    if b == [] {
      assert a + b == a;
    } else {
      var init, c := b[..|b| - 1], b[|b| - 1];
      var ab := a + b;
      ParseAppend(a, init);
      assert ab[..|ab| - 1] == a + init && ab[|ab| - 1] == c;
      ShiftDigit(ParseDigits(a), Pow10(|init|), ParseDigits(init), DigitValue(c));
    }
  }

  lemma ShiftDigit(pa: nat, w: nat, pi: nat, d: nat)
    ensures (pa * w + pi) * 10 + d == pa * (10 * w) + (pi * 10 + d)
  {
  }

  lemma DigitRoundTrip(c: char)
    requires IsDigit(c)
    ensures DigitChar(DigitValue(c)) == c
  {
  }

  /** Padding a number whose last digit is `d` ends with `d`. */
  lemma PadLastDigit(p: nat, d: nat, w: nat)
    requires d < 10
    ensures PadNat(p * 10 + d, w + 1) == PadNat(p, w) + [DigitChar(d)]
  {
    DivMod10(p, d);
  }

  lemma DivMod10(p: nat, d: nat)
    requires d < 10
    ensures (p * 10 + d) / 10 == p && (p * 10 + d) % 10 == d
  {
  }

  /** Canonical decimal numeral of `n`: no leading zero except for 0 itself. */
  function NatToString(n: nat): (s: string)
    ensures |s| >= 1 && AllDigits(s)
    ensures |s| > 1 ==> s[0] != '0'
    ensures ParseDigits(s) == n
  {
    if n < 10 then
      var s := [DigitChar(n)];
      assert s[..0] == [];
      s
    else
      var init := NatToString(n / 10);
      var s := init + [DigitChar(n % 10)];
      assert s[..|s| - 1] == init;
      s
  }

  /** A canonical numeral (no leading zero unless it is "0") is the numeral of
      its own value. */
  lemma {:induction false} NatToStringParsed(ds: string)
    requires |ds| >= 1 && AllDigits(ds)
    requires |ds| > 1 ==> ds[0] != '0'
    ensures NatToString(ParseDigits(ds)) == ds
    decreases |ds|
  {
    var init := ds[..|ds| - 1];
    var last := ds[|ds| - 1];
    if |ds| == 1 {
      assert init == [];
      assert ds == [last];
    } else {
      assert init[0] == ds[0];
      NatToStringParsed(init);
      var p := ParseDigits(init);
      assert p >= 1 by {
        if |init| == 1 {
          assert init == [ds[0]];
          assert init[..0] == [];
        }
      }
      var n := ParseDigits(ds);
      assert n == p * 10 + DigitValue(last);
      assert n / 10 == p && n % 10 == DigitValue(last);
      assert ds == init + [last];
    }
  }

  /** Equal concatenations with equally long first parts have equal parts. */
  lemma CancelLeft(a1: string, b1: string, a2: string, b2: string)
    requires |a1| == |a2| && a1 + b1 == a2 + b2
    ensures a1 == a2 && b1 == b2
  {
    assert a1 == (a1 + b1)[..|a1|] && b1 == (a1 + b1)[|a1|..];
    assert a2 == (a2 + b2)[..|a2|] && b2 == (a2 + b2)[|a2|..];
  }

  /** Equal concatenations with equally long last parts have equal parts. */
  lemma CancelRight(a1: string, b1: string, a2: string, b2: string)
    requires |b1| == |b2| && a1 + b1 == a2 + b2
    ensures a1 == a2 && b1 == b2
  {
    CancelLeft(a1, b1, a2, b2);
  }

  /** `s.substring(start, end)` for `start <= end`: both bounds are clamped to the
      length of `s`, so a range that starts past the end yields the empty string
      and one that only runs past the end yields the rest of `s` from `start`. */
  function Substring(s: string, start: nat, end: nat): (r: string)
    requires start <= end
    ensures end <= |s| ==> r == s[start..end]
    ensures |s| <= start ==> r == []
    ensures start < |s| < end ==> r == s[start..]
    ensures |r| <= end - start
  {
    if |s| <= start then [] else if |s| <= end then s[start..] else s[start..end]
  }

  predicate StartsWith(s: string, prefix: string) {
    |prefix| <= |s| && s[..|prefix|] == prefix
  }

  /** `haystack.includes(needle)`: scan the positions of `haystack` from the left. */
  predicate Includes(haystack: string, needle: string)
    decreases |haystack|
  {
    StartsWith(haystack, needle) || (|haystack| > 0 && Includes(haystack[1..], needle))
  }

  /** `needle` occurs in `haystack` starting at position `i`. */
  predicate OccursAt(haystack: string, needle: string, i: int) {
    0 <= i && i + |needle| <= |haystack| && haystack[i..i + |needle|] == needle
  }

  /** The scan finds `needle` exactly when it occurs at some position. */
  lemma {:induction false} IncludesIffOccurs(haystack: string, needle: string)
    ensures Includes(haystack, needle) <==> exists i :: OccursAt(haystack, needle, i)
    decreases |haystack|
  {
    if StartsWith(haystack, needle) {
      assert OccursAt(haystack, needle, 0);
    } else if |haystack| > 0 {
      var tail := haystack[1..];
      IncludesIffOccurs(tail, needle);
      if Includes(tail, needle) {
        var i :| OccursAt(tail, needle, i);
        assert haystack[i + 1..i + 1 + |needle|] == tail[i..i + |needle|];
        assert OccursAt(haystack, needle, i + 1);
      }
      if i :| OccursAt(haystack, needle, i) {
        assert i != 0;
        assert tail[i - 1..i - 1 + |needle|] == haystack[i..i + |needle|];
        assert OccursAt(tail, needle, i - 1);
      }
    }
  }

  /** A string always includes itself when placed between any two others. */
  lemma IncludesInfix(prefix: string, needle: string, suffix: string)
    ensures Includes(prefix + needle + suffix, needle)
  {
    var s := prefix + needle + suffix;
    assert s[|prefix|..|prefix| + |needle|] == needle;
    assert OccursAt(s, needle, |prefix|);
    IncludesIffOccurs(s, needle);
  }

  /** A string without the first character of `needle` cannot include `needle`. */
  lemma ExcludesWithoutFirstChar(haystack: string, needle: string)
    requires |needle| > 0 && needle[0] !in haystack
    ensures !Includes(haystack, needle)
  {
    forall i | 0 <= i && i + |needle| <= |haystack|
      ensures !OccursAt(haystack, needle, i)
    {
      assert haystack[i] in haystack;
      assert haystack[i..i + |needle|][0] == haystack[i];
    }
    IncludesIffOccurs(haystack, needle);
  }
}
