/**
 * `removeNonDigits` (src/utils/removeNonDigits.ts): `text.replace(/\D/g, '')`
 * keeps the characters `0`-`9` and drops every other one.
 */
module Digits {

  /** What the regular-expression class `\d` matches (ASCII digits only). */
  predicate IsDigit(c: char) {
    '0' <= c <= '9'
  }

  /** The digit subsequence of `s`, in order: the reference the loop below
      is held to. */
  function DigitsOf(s: string): string {
    if s == [] then ""
    else (if IsDigit(s[0]) then [s[0]] else "") + DigitsOf(s[1..])
  }

  lemma {:induction false} DigitsOfAppend(a: string, b: string)
    ensures DigitsOf(a + b) == DigitsOf(a) + DigitsOf(b)
  {
    if a == [] {
      assert a + b == b;
    } else {
      var ab := a + b;
      assert ab[0] == a[0] && ab[1..] == a[1..] + b;
      var head: string := if IsDigit(a[0]) then [a[0]] else "";
      assert DigitsOf(ab) == head + DigitsOf(a[1..] + b);
      DigitsOfAppend(a[1..], b);
      assert DigitsOf(a) == head + DigitsOf(a[1..]);
    }
  }

  /** One left-to-right pass, as the global replace does. */
  method RemoveNonDigits(text: string) returns (r: string)
    ensures r == DigitsOf(text)
    ensures forall i :: 0 <= i < |r| ==> IsDigit(r[i])
    ensures |r| <= |text|
  {
    r := "";
    var i := 0;
    while i < |text|
      invariant 0 <= i <= |text|
      invariant r == DigitsOf(text[..i])
    {
      DigitsOfAppend(text[..i], [text[i]]);
      assert text[..i + 1] == text[..i] + [text[i]];
      if IsDigit(text[i]) {
        r := r + [text[i]];
      }
      i := i + 1;
    }
    assert text[..i] == text;
    DigitsOnly(text);
  }

  /** The output holds only digits and is no longer than the input. */
  lemma {:induction false} DigitsOnly(s: string)
    ensures forall i :: 0 <= i < |DigitsOf(s)| ==> IsDigit(DigitsOf(s)[i])
    ensures |DigitsOf(s)| <= |s|
  {
    if s != [] {
      DigitsOnly(s[1..]);
    }
  }

  /** Every digit occurs as often in the output as in the input, and no
      other character occurs at all. */
  lemma {:induction false} DigitsCounted(s: string, c: char)
    ensures multiset(DigitsOf(s))[c] == if IsDigit(c) then multiset(s)[c] else 0
  {
    if s != [] {
      DigitsCounted(s[1..], c);
      assert s == [s[0]] + s[1..];
      assert multiset(s) == multiset([s[0]]) + multiset(s[1..]);
    }
  }

  /** The output is a subsequence of the input: it is the input with some
      characters dropped. */
  predicate IsSubsequence(a: string, b: string)
    decreases |b|
  {
    a == [] || (b != [] && (if a[0] == b[0] then IsSubsequence(a[1..], b[1..]) else IsSubsequence(a, b[1..])))
  }

  lemma {:induction false} DigitsAreSubsequence(s: string)
    ensures IsSubsequence(DigitsOf(s), s)
  {
    if s != [] {
      DigitsAreSubsequence(s[1..]);
      var rest := DigitsOf(s[1..]);
      if IsDigit(s[0]) {
        assert DigitsOf(s)[1..] == rest;
      } else if rest != [] {
        assert DigitsOf(s) == "" + rest == rest;
        DigitsOnly(s[1..]);
        assert rest[0] != s[0];
      }
    }
  }

  /** An all-digit input is returned unchanged. */
  lemma {:induction false} AllDigitsUnchanged(s: string)
    requires forall i :: 0 <= i < |s| ==> IsDigit(s[i])
    ensures DigitsOf(s) == s
  {
    if s != [] {
      AllDigitsUnchanged(s[1..]);
    }
  }

  /** Removing non-digits twice is removing them once. */
  lemma DigitsIdempotent(s: string)
    ensures DigitsOf(DigitsOf(s)) == DigitsOf(s)
  {
    DigitsOnly(s);
    AllDigitsUnchanged(DigitsOf(s));
  }
}
