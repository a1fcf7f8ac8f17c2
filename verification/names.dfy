/**
 * `abbreviateLastName` (src/utils/abbreviateLastName.ts): "maria da silva"
 * becomes "Maria S.". Case mapping covers ASCII letters.
 */
module Names {
  import opened Text

  /** `name.toLowerCase().trim().split(' ')`. */
  function SplitName(name: string): (parts: seq<string>)
    ensures |parts| >= 1
    ensures Join(parts, ' ') == Trim(Lower(name))
    ensures forall i :: 0 <= i < |parts| ==> ' ' !in parts[i]
  {
    SplitJoin(Trim(Lower(name)), ' ');
    SplitShape(Trim(Lower(name)), ' ');
    Split(Trim(Lower(name)), ' ')
  }

  /** `s.charAt(0).toUpperCase() + s.slice(1)`. */
  function Capitalize(s: string): (r: string)
    ensures |r| == |s|
    ensures s != [] ==> r[0] == UpperChar(s[0]) && r[1..] == s[1..]
  {
    if s == [] then "" else [UpperChar(s[0])] + s[1..]
  }

  /** The first part, capitalised. The source reads `nameParts[0]`, which
      `split` always provides. */
  function CapitalizeFirstName(nameParts: seq<string>): (r: string)
    requires |nameParts| >= 1
    ensures |r| == |nameParts[0]|
    ensures nameParts[0] != [] ==> r[0] == UpperChar(nameParts[0][0]) && r[1..] == nameParts[0][1..]
  {
    Capitalize(nameParts[0])
  }

  /** The last part's initial, upper-cased, and a period; nothing for a
      one-part name. */
  function AbbreviateAndCapitalizeLastName(nameParts: seq<string>): (r: string)
    ensures |nameParts| <= 1 ==> r == ""
    ensures |nameParts| > 1 && nameParts[|nameParts| - 1] != [] ==>
      r == [UpperChar(nameParts[|nameParts| - 1][0]), '.']
  {
    if |nameParts| > 1 then
      var lastName := nameParts[|nameParts| - 1];
      (if lastName == [] then "" else [UpperChar(lastName[0])]) + "."
    else ""
  }

  /** `${firstName} ${abbreviatedLastName}`.trim() */
  function AbbreviateLastName(name: string): (r: string)
    ensures r == [] || (!IsWhitespace(r[0]) && !IsWhitespace(r[|r| - 1]))
  {
    var nameParts := SplitName(name);
    Trim(CapitalizeFirstName(nameParts) + " " + AbbreviateAndCapitalizeLastName(nameParts))
  }

  /** The joined text starts with the first part and ends with the last. */
  lemma {:induction false} JoinEnds(parts: seq<string>, sep: char)
    requires |parts| >= 1
    ensures |parts[0]| <= |Join(parts, sep)| && Join(parts, sep)[..|parts[0]|] == parts[0]
    ensures parts[0] == [] && |parts| > 1 ==> Join(parts, sep)[0] == sep
    ensures var last := parts[|parts| - 1];
      last != [] ==> Join(parts, sep)[|Join(parts, sep)| - 1] == last[|last| - 1]
    ensures var last := parts[|parts| - 1];
      last == [] && |parts| > 1 ==> Join(parts, sep)[|Join(parts, sep)| - 1] == sep
  {
    if |parts| > 1 {
      JoinEnds(parts[1..], sep);
      var rest := Join(parts[1..], sep);
      assert Join(parts, sep) == parts[0] + [sep] + rest;
      if parts[|parts| - 1] == [] {
        assert parts[1..][|parts[1..]| - 1] == [];
        if |parts[1..]| == 1 {
          assert rest == [];
        }
      }
    }
  }

  /** The first part of a name starts with no whitespace; with several
      parts, the first and the last are non-empty. */
  lemma NamePartsShape(name: string)
    ensures var parts := SplitName(name);
      parts[0] != [] ==> !IsWhitespace(parts[0][0])
    ensures var parts := SplitName(name);
      |parts| > 1 ==> parts[0] != [] && parts[|parts| - 1] != []
    ensures var parts := SplitName(name);
      |parts| == 1 ==> parts[0] == Trim(Lower(name))
  {
    var parts := SplitName(name);
    var t := Trim(Lower(name));
    assert Join(parts, ' ') == t;
    assert t == [] || (!IsWhitespace(t[0]) && !IsWhitespace(t[|t| - 1]));
    JoinEnds(parts, ' ');
    if parts[0] != [] {
      assert t[0] == parts[0][0];
    }
    if |parts| > 1 {
      assert t != [];
      assert parts[0] != [];
      assert parts[|parts| - 1] != [];
    }
  }

  /** A one-part name gives its first part capitalised: no space, no period. */
  lemma AbbreviateOnePart(name: string)
    requires |SplitName(name)| == 1
    ensures AbbreviateLastName(name) == Capitalize(Trim(Lower(name)))
  {
    var parts := SplitName(name);
    var t := Trim(Lower(name));
    NamePartsShape(name);
    var first := Capitalize(t);
    assert AbbreviateLastName(name) == Trim(first + " ") by {
      assert CapitalizeFirstName(parts) == first;
      assert AbbreviateAndCapitalizeLastName(parts) == "";
      assert first + " " + "" == first + " ";
    }
    CapitalizeKeepsTrimmed(t);
    TrimAppendedSpace(first);
  }

  /** Capitalising a trimmed string leaves it trimmed. */
  lemma CapitalizeKeepsTrimmed(t: string)
    requires t == [] || (!IsWhitespace(t[0]) && !IsWhitespace(t[|t| - 1]))
    ensures var c := Capitalize(t); c == [] || (!IsWhitespace(c[0]) && !IsWhitespace(c[|c| - 1]))
  {
    if |t| > 1 {
      assert Capitalize(t)[|t| - 1] == t[1..][|t| - 2];
    }
  }

  /** With several parts the result is the capitalised first part, a
      space, the last part's upper-cased initial and a period; the middle
      parts do not appear. */
  lemma AbbreviateManyParts(name: string)
    ensures var parts := SplitName(name);
      var last := parts[|parts| - 1];
      |parts| > 1 ==>
        last != [] &&
        AbbreviateLastName(name) == Capitalize(parts[0]) + " " + [UpperChar(last[0]), '.']
  {
    var parts := SplitName(name);
    if |parts| > 1 {
      NamePartsShape(name);
      var s := Capitalize(parts[0]) + " " + AbbreviateAndCapitalizeLastName(parts);
      assert s[0] == UpperChar(parts[0][0]);
      assert s[|s| - 1] == '.';
      TrimIdentity(s);
    }
  }

  /** Only the first part and the last part's initial matter. */
  lemma MiddlePartsIgnored(a: string, b: string)
    requires |SplitName(a)| > 1 && |SplitName(b)| > 1
    requires SplitName(a)[0] == SplitName(b)[0]
    requires Initial(SplitName(a)[|SplitName(a)| - 1]) == Initial(SplitName(b)[|SplitName(b)| - 1])
    ensures AbbreviateLastName(a) == AbbreviateLastName(b)
  {
    var pa, pb := SplitName(a), SplitName(b);
    var la, lb := pa[|pa| - 1], pb[|pb| - 1];
    AbbreviateManyParts(a);
    AbbreviateManyParts(b);
    assert la[0] == Initial(la)[0];
    assert lb[0] == Initial(lb)[0];
  }

  /** The first character of a string, if any. */
  function Initial(s: string): string {
    if s == [] then "" else [s[0]]
  }

  /** After the initial capital, the first name is in lower case. */
  lemma FirstNameLowerCase(name: string)
    ensures var r := AbbreviateLastName(name);
      var first := SplitName(name)[0];
      |first| <= |r| && forall i :: 1 <= i < |first| ==> LowerChar(r[i]) == r[i]
  {
    var parts := SplitName(name);
    NamePartsShape(name);
    if |parts| == 1 {
      AbbreviateOnePart(name);
    } else {
      AbbreviateManyParts(name);
    }
    FirstPartIsLowerCase(name);
  }

  lemma FirstPartIsLowerCase(name: string)
    ensures var first := SplitName(name)[0];
      forall i :: 0 <= i < |first| ==> LowerChar(first[i]) == first[i]
  {
    var parts := SplitName(name);
    var t := Trim(Lower(name));
    JoinEnds(parts, ' ');
    forall i | 0 <= i < |parts[0]| ensures LowerChar(parts[0][i]) == parts[0][i] {
      assert parts[0][i] == t[i];
      assert t[i] in Lower(name);
      LowerIsLower(name);
    }
  }
}
