/** Letter case as the handlers use it: the gender normaliser
    `gender[0].toUpperCase() + gender.slice(1)` shared by both chart endpoints,
    and `feature.toLowerCase()` in the line-chart query. Case mapping is that of
    the ASCII letters; every other character maps to itself. */
module Casing {

  function UpperAscii(c: char): (u: char)
    ensures 'a' <= c <= 'z' ==> u as int == c as int - 32
    ensures !('a' <= c <= 'z') ==> u == c
  {
    if 'a' <= c <= 'z' then (c as int - 32) as char else c
  }

  function LowerAscii(c: char): (l: char)
    ensures 'A' <= c <= 'Z' ==> l as int == c as int + 32
    ensures !('A' <= c <= 'Z') ==> l == c
  {
    if 'A' <= c <= 'Z' then (c as int + 32) as char else c
  }

  /** Two characters are the same letter up to case exactly when they upper-case alike. */
  lemma SameLetter(a: char, b: char)
    ensures LowerAscii(a) == LowerAscii(b) <==> UpperAscii(a) == UpperAscii(b)
  {
  }

  /** The gender normaliser: the first character upper-cased, the rest untouched.
      The source evaluates it only on a non-empty value (`if (gender)`);
      on the empty string `gender[0]` is undefined and the call would throw. */
  function Capitalize(s: string): (r: string)
    requires s != ""
    ensures |r| == |s|
    ensures r[0] == UpperAscii(s[0])
    ensures r[1..] == s[1..]
  {
    [UpperAscii(s[0])] + s[1..]
  }

  /** Normalising twice is normalising once. */
  lemma CapitalizeIdempotent(s: string)
    requires s != ""
    ensures Capitalize(Capitalize(s)) == Capitalize(s)
  {
    var r := Capitalize(s);
    assert UpperAscii(r[0]) == r[0];
    assert Capitalize(r) == [r[0]] + r[1..];
  }

  /** Values that differ at most in the case of their first letter normalise alike. */
  lemma CapitalizeIgnoresFirstCase(s: string, t: string)
    requires s != "" && t != ""
    requires LowerAscii(s[0]) == LowerAscii(t[0]) && s[1..] == t[1..]
    ensures Capitalize(s) == Capitalize(t)
  {
    SameLetter(s[0], t[0]);
    assert Capitalize(s) == [UpperAscii(t[0])] + t[1..];
  }

  /** Only the first character is normalised: "MALE" and "male" stay distinct. */
  lemma CapitalizeKeepsLaterCase()
    ensures Capitalize("male") == "Male"
    ensures Capitalize("MALE") == "MALE"
    ensures Capitalize("male") != Capitalize("MALE")
  {
    assert Capitalize("male") == ['M'] + "ale";
    assert Capitalize("MALE") == ['M'] + "ALE";
  }

  /** `toLowerCase()` of a whole string, character by character. */
  function LowerString(s: string): (r: string)
    ensures |r| == |s|
    ensures forall i :: 0 <= i < |s| ==> r[i] == LowerAscii(s[i])
    decreases |s|
  {
    if s == "" then "" else [LowerAscii(s[0])] + LowerString(s[1..])
  }

  /** Lower-casing an already lower-cased string changes nothing. */
  lemma LowerStringIdempotent(s: string)
    ensures LowerString(LowerString(s)) == LowerString(s)
  {
    var r := LowerString(s);
    var rr := LowerString(r);
    assert forall i :: 0 <= i < |r| ==> rr[i] == r[i];
  }
}
