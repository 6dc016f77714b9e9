/**
 The handful of Java platform routines the dependency-alignment configuration
 relies on: `Properties.getProperty`, `String.equalsIgnoreCase` and
 `Boolean.valueOf(String)`. Character case mapping is restricted to ASCII,
 which is exact for every comparison against the literal "true".
 */
module Jdk {
  import opened Wrappers

  /** `Properties.getProperty(key)`: the stored value, or null when the key is absent. */
  function GetProperty(props: map<string, string>, key: string): (r: Option<string>)
    ensures r.Some? <==> key in props
    ensures r.Some? ==> r.value == props[key]
  {
    if key in props then Some(props[key]) else None
  }

  /** `Properties.getProperty(key, defaultValue)`: the stored value, or the default when the key is absent; never null. */
  function GetPropertyOr(props: map<string, string>, key: string, defaultValue: string): (r: string)
    ensures key in props ==> r == props[key]
    ensures key !in props ==> r == defaultValue
  {
    match GetProperty(props, key)
    case Some(v) => v
    case None => defaultValue
  }

  /** `Character.toUpperCase` on ASCII letters; every other character is left alone. */
  function ToUpperCase(c: char): char {
    if 'a' <= c <= 'z' then (c as int - 32) as char else c
  }

  /** `Character.toLowerCase` on ASCII letters; every other character is left alone. */
  function ToLowerCase(c: char): char {
    if 'A' <= c <= 'Z' then (c as int + 32) as char else c
  }

  /** The lower-case form of a whole string, character by character. */
  function AsciiLower(s: string): string {
    seq(|s|, i requires 0 <= i < |s| => ToLowerCase(s[i]))
  }

  /**
   The independent reference for "equals \"true\" ignoring case": the string
   folds to exactly the four letters t, r, u, e.
   */
  predicate IsTrueIgnoringCase(s: string) {
    AsciiLower(s) == "true"
  }

  /**
   The per-character test of `String.regionMatches` with `ignoreCase` set:
   equal characters, equal upper-case forms, or equal lower-case forms of the
   upper-case forms.
   */
  predicate CharEqualsIgnoreCase(c1: char, c2: char) {
    || c1 == c2
    || ToUpperCase(c1) == ToUpperCase(c2)
    || ToLowerCase(ToUpperCase(c1)) == ToLowerCase(ToUpperCase(c2))
  }

  /** Under ASCII case mapping the three-way test is the same as comparing lower-case forms. */
  lemma CharEqualsIgnoreCaseIsLowerEquality(c1: char, c2: char)
    ensures CharEqualsIgnoreCase(c1, c2) <==> ToLowerCase(c1) == ToLowerCase(c2)
  {
  }

  /**
   `a.regionMatches(true, 0, b, 0, |a|)` for strings of the same length: the
   loop walks both strings in step and stops at the first pair of characters
   that differ in more than case.
   */
  function RegionMatchesIgnoreCase(a: string, b: string): (r: bool)
    requires |a| == |b|
    ensures r <==> forall i :: 0 <= i < |a| ==> ToLowerCase(a[i]) == ToLowerCase(b[i])
  {
    if |a| == 0 then true
    else
      CharEqualsIgnoreCaseIsLowerEquality(a[0], b[0]);
      var rest := RegionMatchesIgnoreCase(a[1..], b[1..]);
      assert rest <==> forall i :: 1 <= i < |a| ==> ToLowerCase(a[i]) == ToLowerCase(b[i]) by {
        forall i | 1 <= i < |a| ensures a[1..][i - 1] == a[i] && b[1..][i - 1] == b[i] { }
      }
      CharEqualsIgnoreCase(a[0], b[0]) && rest
  }

  /**
   `a.equalsIgnoreCase(b)`: false for null, otherwise the lengths must agree
   and every position must match ignoring case. The result is the same as
   comparing the lower-case forms of the two strings.
   */
  function EqualsIgnoreCase(a: string, b: Option<string>): (r: bool)
    ensures r <==> b.Some? && AsciiLower(a) == AsciiLower(b.value)
  {
    match b
    case None => false
    case Some(other) =>
      var r := |a| == |other| && RegionMatchesIgnoreCase(a, other);
      assert r <==> AsciiLower(a) == AsciiLower(other) by {
        if AsciiLower(a) == AsciiLower(other) {
          assert |a| == |other|;
          forall i | 0 <= i < |a| ensures ToLowerCase(a[i]) == ToLowerCase(other[i]) {
            assert AsciiLower(a)[i] == AsciiLower(other)[i];
          }
        }
      }
      r
  }

  /**
   `Boolean.valueOf(String)`, i.e. `Boolean.parseBoolean`: true exactly when
   the argument is non-null and equals "true" ignoring case.
   */
  function BooleanValueOf(s: Option<string>): (r: bool)
    ensures r <==> s.Some? && IsTrueIgnoringCase(s.value)
  {
    match s
    case None => false
    case Some(v) =>
      assert AsciiLower("true") == "true";
      EqualsIgnoreCase("true", Some(v))
  }

  /** The sixteen spellings of "true" with each letter in either case. */
  predicate SpellsTrue(s: string) {
    && |s| == 4
    && (s[0] == 't' || s[0] == 'T')
    && (s[1] == 'r' || s[1] == 'R')
    && (s[2] == 'u' || s[2] == 'U')
    && (s[3] == 'e' || s[3] == 'E')
  }

  /** The strings that fold to "true" are exactly the spellings of "true" in mixed case. */
  lemma {:induction false} TrueSpellings(s: string)
    ensures IsTrueIgnoringCase(s) <==> SpellsTrue(s)
  {
    if |s| == 4 {
      var l := AsciiLower(s);
      assert l == [ToLowerCase(s[0]), ToLowerCase(s[1]), ToLowerCase(s[2]), ToLowerCase(s[3])];
    }
  }

  /** Sample inputs: any casing of "true" gives true; "yes", "1", the empty string and null give false. */
  lemma BooleanValueOfExamples()
    ensures BooleanValueOf(Some("true"))
    ensures BooleanValueOf(Some("TRUE"))
    ensures BooleanValueOf(Some("True"))
    ensures !BooleanValueOf(Some("false"))
    ensures !BooleanValueOf(Some("yes"))
    ensures !BooleanValueOf(Some("1"))
    ensures !BooleanValueOf(Some(""))
    ensures !BooleanValueOf(Some(" true"))
    ensures !BooleanValueOf(None)
  {
    TrueSpellings("true");
    TrueSpellings("TRUE");
    TrueSpellings("True");
    TrueSpellings("false");
    TrueSpellings("yes");
    TrueSpellings("1");
    TrueSpellings("");
    TrueSpellings(" true");
  }
}
