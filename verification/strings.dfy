/** string.ts: length, upper-casing (ASCII letters only) and substring
    search. */
module Strings {

  /** `getLength(str)`. */
  function GetLength(s: string): (n: nat)
    ensures n == 0 <==> s == ""
  {
    |s|
  }

  /** The length of a concatenation is the sum of the lengths. */
  lemma GetLengthAppend(a: string, b: string)
    ensures GetLength(a + b) == GetLength(a) + GetLength(b)
  {
  }

  /** A one-character string has length 1; with GetLengthAppend, every
      string's length is its number of characters. */
  lemma GetLengthUnit(c: char)
    ensures GetLength([c]) == 1
  {
  }

  predicate IsAsciiLower(c: char) {
    'a' <= c <= 'z'
  }

  function UpperChar(c: char): (u: char)
    ensures !IsAsciiLower(u)
    ensures IsAsciiLower(c) ==> u as int == c as int - 32
    ensures !IsAsciiLower(c) ==> u == c
  {
    if IsAsciiLower(c) then (c as int - 32) as char else c
  }

  /** `toUpperCase(str)`, restricted to ASCII letters: each lower-case
      letter is replaced by its capital, everything else is kept. */
  function ToUpperCase(s: string): (r: string)
    ensures |r| == |s|
    ensures forall i :: 0 <= i < |s| ==> r[i] == UpperChar(s[i])
  {
    if s == [] then [] else [UpperChar(s[0])] + ToUpperCase(s[1..])
  }

  /** Upper-casing twice is the same as once. */
  lemma ToUpperCaseIdempotent(s: string)
    ensures ToUpperCase(ToUpperCase(s)) == ToUpperCase(s)
  {
  }

  /** `s` begins with `prefix`. */
  predicate StartsWith(s: string, prefix: string) {
    |prefix| <= |s| && s[..|prefix|] == prefix
  }

  /** `sub` occurs in `s` starting at index i. */
  predicate OccursAt(s: string, sub: string, i: nat) {
    i + |sub| <= |s| && s[i..i + |sub|] == sub
  }

  /** `contains(str, char)`: `str.includes(char)`, a substring search. */
  function Contains(s: string, sub: string): (r: bool)
    ensures r <==> exists i: nat :: OccursAt(s, sub, i)
  {
    if StartsWith(s, sub) then
      assert OccursAt(s, sub, 0);
      true
    else if s == [] then
      false
    else
      var rest := Contains(s[1..], sub);
      forall i: nat | OccursAt(s, sub, i)
        ensures i >= 1 && OccursAt(s[1..], sub, i - 1)
      {
        assert s[1..][i - 1..i - 1 + |sub|] == s[i..i + |sub|];
      }
      forall i: nat | OccursAt(s[1..], sub, i)
        ensures OccursAt(s, sub, i + 1)
      {
        assert s[1..][i..i + |sub|] == s[i + 1..i + 1 + |sub|];
      }
      rest
  }

  lemma StringExamples()
    ensures GetLength("hello") == 5
    ensures ToUpperCase("hello") == "HELLO"
    ensures Contains("hello", "e")
    ensures !Contains("hello", "a")
  {
    assert "hello"[1..1 + 1] == "e";
  }
}
