/** Text primitives the assistant relies on: the whitespace classes of
    JavaScript's String.prototype.trim and Python's str.strip, trimming,
    ASCII lower-casing and substring search (JavaScript's includes/indexOf). */
module Strings {

  datatype Option<+T> = None | Some(value: T)

  /** ECMAScript WhiteSpace and LineTerminator code points (what `trim()` removes). */
  predicate IsJsSpace(c: char) {
    c == '\t' || c == '\n' || c == '\U{000B}' || c == '\U{000C}' || c == '\r' || c == ' '
    || c == '\U{00A0}' || c == '\U{1680}' || ('\U{2000}' <= c <= '\U{200A}')
    || c == '\U{2028}' || c == '\U{2029}' || c == '\U{202F}' || c == '\U{205F}'
    || c == '\U{3000}' || c == '\U{FEFF}'
  }

  /** Python's `str.isspace` characters (what `strip()` with no argument removes). */
  predicate IsPySpace(c: char) {
    c == '\t' || c == '\n' || c == '\U{000B}' || c == '\U{000C}' || c == '\r'
    || ('\U{001C}' <= c <= '\U{001F}') || c == ' ' || c == '\U{0085}' || c == '\U{00A0}'
    || c == '\U{1680}' || ('\U{2000}' <= c <= '\U{200A}') || c == '\U{2028}' || c == '\U{2029}'
    || c == '\U{202F}' || c == '\U{205F}' || c == '\U{3000}'
  }

  /** Number of leading characters of `s` in the class `isSpace`. */
  function LeadingSpaces(s: string, isSpace: char -> bool): (n: nat)
    ensures n <= |s|
    ensures forall k :: 0 <= k < n ==> isSpace(s[k])
    ensures n < |s| ==> !isSpace(s[n])
  {
    if s != [] && isSpace(s[0]) then 1 + LeadingSpaces(s[1..], isSpace) else 0
  }

  /** `s` without its trailing characters in the class `isSpace`. */
  function TrimEnd(s: string, isSpace: char -> bool): (r: string)
    ensures |r| <= |s| && r == s[..|r|]
    ensures forall k :: |r| <= k < |s| ==> isSpace(s[k])
    ensures r == [] || !isSpace(r[|r| - 1])
  {
    if s != [] && isSpace(s[|s| - 1]) then TrimEnd(s[..|s| - 1], isSpace) else s
  }

  /** Both ends trimmed: the result is the slice of `s` that starts after the
      leading spaces and stops before the trailing ones; it neither starts nor
      ends with a space, and it is empty exactly when `s` is all spaces. */
  function Trim(s: string, isSpace: char -> bool): (r: string)
    ensures LeadingSpaces(s, isSpace) + |r| <= |s|
    ensures r == s[LeadingSpaces(s, isSpace)..LeadingSpaces(s, isSpace) + |r|]
    ensures forall k :: LeadingSpaces(s, isSpace) + |r| <= k < |s| ==> isSpace(s[k])
    ensures r == [] || (!isSpace(r[0]) && !isSpace(r[|r| - 1]))
    ensures r == [] <==> forall k :: 0 <= k < |s| ==> isSpace(s[k])
  {
    var n := LeadingSpaces(s, isSpace);
    var r := TrimEnd(s[n..], isSpace);
    assert r == [] ==> n == |s| by {
      if n < |s| { assert s[n..][0] == s[n]; }
    }
    r
  }

  /** Trimming an already trimmed string changes nothing. */
  lemma TrimIdempotent(s: string, isSpace: char -> bool)
    ensures Trim(Trim(s, isSpace), isSpace) == Trim(s, isSpace)
  {
    var r := Trim(s, isSpace);
    if r != [] {
      assert LeadingSpaces(r, isSpace) == 0;
      assert r[0..|r|] == r;
    }
  }

  /** Text that neither starts nor ends with a space is its own trim. */
  lemma TrimUnspaced(s: string, isSpace: char -> bool)
    requires s != [] && !isSpace(s[0]) && !isSpace(s[|s| - 1])
    ensures Trim(s, isSpace) == s
  {
    assert LeadingSpaces(s, isSpace) == 0;
    var r := Trim(s, isSpace);
    assert |r| == |s|;
    assert s[0..|s|] == s;
  }

  /** A leading space makes no difference to the trim. */
  lemma TrimAfterSpace(c: char, s: string, isSpace: char -> bool)
    requires isSpace(c)
    ensures Trim([c] + s, isSpace) == Trim(s, isSpace)
  {
    var t := [c] + s;
    assert t[1..] == s;
    var n := LeadingSpaces(s, isSpace);
    assert LeadingSpaces(t, isSpace) == 1 + n;
    assert t[1 + n..] == s[n..];
  }

  /** One space, then text that neither starts nor ends with one: the trim
      drops just that space. */
  lemma TrimSpaceThen(c: char, s: string, isSpace: char -> bool)
    requires isSpace(c)
    requires s != [] && !isSpace(s[0]) && !isSpace(s[|s| - 1])
    ensures Trim([c] + s, isSpace) == s
  {
    TrimAfterSpace(c, s, isSpace);
    TrimUnspaced(s, isSpace);
  }

  /** ASCII lower-casing: 'A'..'Z' become 'a'..'z', every other character is kept. */
  function LowerChar(c: char): (d: char)
    ensures 'A' <= c <= 'Z' ==> 'a' <= d <= 'z' && d as int - c as int == 32
    ensures !('A' <= c <= 'Z') ==> d == c
  {
    if 'A' <= c <= 'Z' then (c as int + 32) as char else c
  }

  /** Lower-cases every character (JavaScript `toLowerCase` on ASCII text). */
  function Lower(s: string): (r: string)
    ensures |r| == |s|
  {
    if s == [] then [] else [LowerChar(s[0])] + Lower(s[1..])
  }

  /** Lower-casing works position by position, so an index found in the
      lower-cased text is an index into the original text. */
  lemma {:induction false} LowerAt(s: string, i: nat)
    requires i < |s|
    ensures Lower(s)[i] == LowerChar(s[i])
  {
    if i > 0 {
      LowerAt(s[1..], i - 1);
    }
  }

  /** Text without upper-case ASCII letters is its own lower-case form. */
  lemma {:induction false} LowerOfLower(s: string)
    requires forall i :: 0 <= i < |s| ==> !('A' <= s[i] <= 'Z')
    ensures Lower(s) == s
  {
    if s != [] {
      LowerOfLower(s[1..]);
    }
  }

  /** When the first characters of `s` lower-case one by one to `p`, the
      lower-cased text starts with `p`. */
  lemma LowerPrefix(s: string, p: string)
    requires |p| <= |s|
    requires forall i :: 0 <= i < |p| ==> LowerChar(s[i]) == p[i]
    ensures Lower(s)[..|p|] == p
  {
    forall i | 0 <= i < |p| ensures Lower(s)[i] == p[i] {
      LowerAt(s, i);
    }
  }

  /** `p` occurs in `s` starting at index `i`. */
  predicate OccursAt(s: string, p: string, i: nat) {
    i + |p| <= |s| && s[i..i + |p|] == p
  }

  /** First index at or after `from` where `p` occurs, or -1. */
  function IndexFrom(s: string, p: string, from: nat): (r: int)
    decreases |s| - from
    ensures r == -1 || (from <= r && OccursAt(s, p, r))
    ensures r == -1 ==> forall j :: from <= j <= |s| - |p| ==> !OccursAt(s, p, j)
    ensures r != -1 ==> forall j :: from <= j < r ==> !OccursAt(s, p, j)
  {
    if from + |p| > |s| then -1
    else if s[from..from + |p|] == p then from
    else IndexFrom(s, p, from + 1)
  }

  /** JavaScript `s.indexOf(p)`: the first occurrence of `p` in `s`, or -1 when there is none. */
  function IndexOf(s: string, p: string): (r: int)
    ensures r == -1 || (0 <= r && OccursAt(s, p, r))
    ensures r == -1 ==> forall j :: 0 <= j <= |s| - |p| ==> !OccursAt(s, p, j)
    ensures r != -1 ==> forall j :: 0 <= j < r ==> !OccursAt(s, p, j)
  {
    IndexFrom(s, p, 0)
  }

  /** JavaScript `s.includes(p)`, which holds exactly when `s.indexOf(p)` is not -1. */
  predicate Contains(s: string, p: string) {
    IndexOf(s, p) != -1
  }

  /** `includes` is substring search: it holds exactly when `p` occurs somewhere in `s`. */
  lemma ContainsIff(s: string, p: string)
    ensures Contains(s, p) <==> exists i :: 0 <= i <= |s| - |p| && OccursAt(s, p, i)
  {
    if Contains(s, p) {
      var r := IndexOf(s, p);
      assert 0 <= r <= |s| - |p| && OccursAt(s, p, r);
    }
  }
}
