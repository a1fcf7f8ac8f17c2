/**
 * The JavaScript string operations the utilities and middlewares use:
 * `trim`, ASCII `toLowerCase` / `toUpperCase`, and `split` on one
 * separator character.
 */
module Text {

  /** The characters `String.prototype.trim` strips: ECMAScript WhiteSpace
      and LineTerminator code points. */
  predicate IsWhitespace(c: char) {
    || c == ' ' || c == '\t' || c == '\n' || c == '\U{000B}' || c == '\U{000C}' || c == '\r'
    || c == '\U{00A0}' || c == '\U{1680}' || ('\U{2000}' <= c <= '\U{200A}')
    || c == '\U{2028}' || c == '\U{2029}' || c == '\U{202F}' || c == '\U{205F}'
    || c == '\U{3000}' || c == '\U{FEFF}'
  }

  /** Drops leading whitespace. */
  function TrimStart(s: string): (r: string)
    ensures |r| <= |s| && r == s[|s| - |r|..]
    ensures forall i :: 0 <= i < |s| - |r| ==> IsWhitespace(s[i])
    ensures r == [] || !IsWhitespace(r[0])
  {
    if s == [] || !IsWhitespace(s[0]) then s else TrimStart(s[1..])
  }

  /** Drops trailing whitespace. */
  function TrimEnd(s: string): (r: string)
    ensures |r| <= |s| && r == s[..|r|]
    ensures forall i :: |r| <= i < |s| ==> IsWhitespace(s[i])
    ensures r == [] || !IsWhitespace(r[|r| - 1])
  {
    if s == [] || !IsWhitespace(s[|s| - 1]) then s else TrimEnd(s[..|s| - 1])
  }

  /** `s.trim()`. */
  function Trim(s: string): (r: string)
    ensures r == [] || (!IsWhitespace(r[0]) && !IsWhitespace(r[|r| - 1]))
    ensures |r| <= |s|
    ensures forall c :: c in r ==> c in s
  {
    var t := TrimStart(s);
    assert t == s[|s| - |t|..];
    TrimEnd(t)
  }

  /** The trim is the infix of the input that starts after its leading
      whitespace (see `TrimCutsWhitespace` for what lies around it). */
  lemma {:induction false} TrimInfix(s: string)
    ensures |s| - |TrimStart(s)| + |Trim(s)| <= |s|
    ensures Trim(s) == s[|s| - |TrimStart(s)|..|s| - |TrimStart(s)| + |Trim(s)|]
  {
    TrimPrefixOfTrimStart(s);
    PrefixOfSuffix(s, TrimStart(s), Trim(s));
  }

  /** `trim` drops trailing whitespace from what `TrimStart` left. */
  lemma TrimPrefixOfTrimStart(s: string)
    ensures |Trim(s)| <= |TrimStart(s)| && Trim(s) == TrimStart(s)[..|Trim(s)|]
  {
    assert Trim(s) == TrimEnd(TrimStart(s));
  }

  /** A prefix of a suffix is an infix. */
  lemma PrefixOfSuffix(s: string, t: string, r: string)
    requires |t| <= |s| && t == s[|s| - |t|..]
    requires |r| <= |t| && r == t[..|r|]
    ensures |s| - |t| + |r| <= |s| && r == s[|s| - |t|..|s| - |t| + |r|]
  {
  }

  /** Trimming cuts only whitespace, and only at the ends: everything
      before and after the infix `TrimInfix` names is whitespace. */
  lemma {:induction false} TrimCutsWhitespace(s: string)
    ensures forall i :: 0 <= i < |s| - |TrimStart(s)| ==> IsWhitespace(s[i])
    ensures forall i :: |s| - |TrimStart(s)| + |Trim(s)| <= i < |s| ==> IsWhitespace(s[i])
  {
    var t := TrimStart(s);
    var a := |s| - |t|;
    assert t == s[a..];
    assert Trim(s) == TrimEnd(t);
    forall i | a + |Trim(s)| <= i < |s| ensures IsWhitespace(s[i]) {
      assert s[i] == t[i - a];
    }
  }

  /** A string that neither starts nor ends with whitespace is its own trim. */
  lemma TrimIdentity(s: string)
    requires s == [] || (!IsWhitespace(s[0]) && !IsWhitespace(s[|s| - 1]))
    ensures Trim(s) == s
  {
  }

  /** Trimming a string that is already trimmed, with one space appended,
      gives the string back. */
  lemma TrimAppendedSpace(s: string)
    requires s == [] || (!IsWhitespace(s[0]) && !IsWhitespace(s[|s| - 1]))
    ensures Trim(s + " ") == s
  {
    var t := s + " ";
    if s != [] {
      assert TrimStart(t) == t;
      assert t[..|t| - 1] == s;
    }
  }

  function LowerChar(c: char): char {
    if 'A' <= c <= 'Z' then (c as int + 32) as char else c
  }

  function UpperChar(c: char): (u: char)
    ensures IsWhitespace(u) <==> IsWhitespace(c)
  {
    if 'a' <= c <= 'z' then (c as int - 32) as char else c
  }

  /** `s.toLowerCase()` on ASCII letters. */
  function Lower(s: string): (r: string)
    ensures |r| == |s|
    ensures forall i :: 0 <= i < |s| ==> r[i] == LowerChar(s[i])
  {
    seq(|s|, i requires 0 <= i < |s| => LowerChar(s[i]))
  }

  /** A lower-cased string has nothing left to lower. */
  lemma LowerIsLower(s: string)
    ensures forall c :: c in Lower(s) ==> LowerChar(c) == c
  {
  }

  /** Occurrences of `c` in `s`. */
  function Count(s: string, c: char): nat {
    if s == [] then 0 else (if s[0] == c then 1 else 0) + Count(s[1..], c)
  }

  /** `s.split(sep)` for a one-character separator: the pieces between
      consecutive separators, empty pieces included. */
  function Split(s: string, sep: char): (parts: seq<string>)
    ensures |parts| >= 1
  {
    if s == [] then [""]
    else
      var rest := Split(s[1..], sep);
      if s[0] == sep then [""] + rest
      else [[s[0]] + rest[0]] + rest[1..]
  }

  /** `parts.join(sep)`. */
  function Join(parts: seq<string>, sep: char): string
    requires |parts| >= 1
  {
    if |parts| == 1 then parts[0] else parts[0] + [sep] + Join(parts[1..], sep)
  }

  /** Splitting then joining gives the input back. */
  lemma {:induction false} SplitJoin(s: string, sep: char)
    ensures Join(Split(s, sep), sep) == s
  {
    if s != [] {
      SplitJoin(s[1..], sep);
      var rest := Split(s[1..], sep);
      if s[0] != sep {
        if |rest| > 1 {
          assert ([[s[0]] + rest[0]] + rest[1..])[1..] == rest[1..];
        }
      }
    }
  }

  /** One more piece than separators, and no piece holds a separator. */
  lemma {:induction false} SplitShape(s: string, sep: char)
    ensures |Split(s, sep)| == Count(s, sep) + 1
    ensures forall i :: 0 <= i < |Split(s, sep)| ==> sep !in Split(s, sep)[i]
  {
    if s != [] {
      SplitShape(s[1..], sep);
    }
  }

  lemma {:induction false} CountPositive(s: string, c: char, i: nat)
    requires i < |s| && s[i] == c
    ensures Count(s, c) >= 1
  {
    if i > 0 {
      CountPositive(s[1..], c, i - 1);
    }
  }

  /** With exactly one separator, the two pieces are the text before and
      after it. */
  lemma {:induction false} SplitAtOnlySeparator(s: string, sep: char, i: nat)
    requires i < |s| && s[i] == sep && Count(s, sep) == 1
    ensures Split(s, sep) == [s[..i], s[i + 1..]]
    decreases i
  {
    SplitShape(s, sep);
    if i == 0 {
      SplitShape(s[1..], sep);
      assert Split(s[1..], sep) == [s[1..]] by {
        SplitJoin(s[1..], sep);
      }
    } else {
      assert s[1..][i - 1] == sep;
      CountPositive(s[1..], sep, i - 1);
      SplitAtOnlySeparator(s[1..], sep, i - 1);
      assert [s[0]] + s[1..][..i - 1] == s[..i];
    }
  }
}
