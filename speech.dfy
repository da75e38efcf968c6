/** The text handed to speech synthesis: the answer passed through a chain of
    five `str.replace` calls (`"` to `'`, newline to space, and backtick,
    `*` and `#` deleted). */
module Speech {

  /** Python `s.replace(c, replacement)` for a one-character pattern: every occurrence
      of `c` becomes `replacement`, everything else is kept in order. */
  function ReplaceChar(s: string, c: char, replacement: string): (r: string)
    ensures c !in replacement ==> c !in r
    ensures c !in s ==> r == s
  {
    if s == [] then [] else (if s[0] == c then replacement else [s[0]]) + ReplaceChar(s[1..], c, replacement)
  }

  /** `clean_response`, the replace chain in the order the app applies it. */
  function CleanResponse(s: string): string {
    ReplaceChar(ReplaceChar(ReplaceChar(ReplaceChar(ReplaceChar(s, '"', "'"), '\n', " "), '`', ""), '*', ""), '#', "")
  }

  /** The characters that never survive the rewrite. */
  predicate Unspeakable(c: char) {
    c == '"' || c == '\n' || c == '`' || c == '*' || c == '#'
  }

  /** What one character of the answer becomes in the spoken text. */
  function CleanChar(c: char): (r: string)
    ensures forall d :: d in r ==> !Unspeakable(d)
    ensures !Unspeakable(c) ==> r == [c]
  {
    if c == '"' then "'"
    else if c == '\n' then " "
    else if c == '`' || c == '*' || c == '#' then ""
    else [c]
  }

  /** The reference rewrite: each character replaced by its image, in order. */
  function CleanEach(s: string): string {
    if s == [] then [] else CleanChar(s[0]) + CleanEach(s[1..])
  }

  lemma {:induction false} ReplaceCharAppend(a: string, b: string, c: char, replacement: string)
    ensures ReplaceChar(a + b, c, replacement) == ReplaceChar(a, c, replacement) + ReplaceChar(b, c, replacement)
    decreases |a|
  {
    if a == [] {
      assert a + b == b;
    } else {
      assert (a + b)[1..] == a[1..] + b;
      ReplaceCharAppend(a[1..], b, c, replacement);
    }
  }

  lemma ReplaceCharSingle(x: char, c: char, replacement: string)
    ensures ReplaceChar([x], c, replacement) == if x == c then replacement else [x]
  {
    assert [x][1..] == [];
  }

  /** The chain of five replacements is the one-pass, character-by-character
      rewrite: each character is mapped on its own and the order is kept. */
  lemma {:induction false} CleanResponseIsPerCharacter(s: string)
    ensures CleanResponse(s) == CleanEach(s)
    decreases |s|
  {
    if s != [] {
      var x, rest := s[0], s[1..];
      assert s == [x] + rest;
      CleanResponseIsPerCharacter(rest);
      var s1 := ReplaceChar(s, '"', "'");
      assert s1 == ReplaceChar([x], '"', "'") + ReplaceChar(rest, '"', "'") by {
        ReplaceCharAppend([x], rest, '"', "'");
      }
      ReplaceCharSingle(x, '"', "'");
      var x1 := if x == '"' then "'" else [x];
      var r1 := ReplaceChar(rest, '"', "'");
      ReplaceCharAppend(x1, r1, '\n', " ");
      var x2 := ReplaceChar(x1, '\n', " ");
      var r2 := ReplaceChar(r1, '\n', " ");
      ReplaceCharAppend(x2, r2, '`', "");
      var x3 := ReplaceChar(x2, '`', "");
      var r3 := ReplaceChar(r2, '`', "");
      ReplaceCharAppend(x3, r3, '*', "");
      var x4 := ReplaceChar(x3, '*', "");
      var r4 := ReplaceChar(r3, '*', "");
      ReplaceCharAppend(x4, r4, '#', "");
      var x5 := ReplaceChar(x4, '#', "");
      assert x5 == CleanChar(x) by {
        ReplaceCharSingle(x, '\n', " ");
        ReplaceCharSingle(x, '`', "");
        ReplaceCharSingle(x, '*', "");
        ReplaceCharSingle(x, '#', "");
        ReplaceCharSingle('\'', '\n', " ");
        ReplaceCharSingle('\'', '`', "");
        ReplaceCharSingle('\'', '*', "");
        ReplaceCharSingle('\'', '#', "");
        ReplaceCharSingle(' ', '`', "");
        ReplaceCharSingle(' ', '*', "");
        ReplaceCharSingle(' ', '#', "");
        assert ReplaceChar("", '*', "") == "";
        assert ReplaceChar("", '#', "") == "";
      }
    }
  }

  /** The spoken text holds none of `"`, newline, backtick, `*` and `#`. */
  lemma {:induction false} CleanResponseSpeakable(s: string)
    ensures forall d :: d in CleanResponse(s) ==> !Unspeakable(d)
  {
    CleanResponseIsPerCharacter(s);
    CleanEachSpeakable(s);
  }

  lemma {:induction false} CleanEachSpeakable(s: string)
    ensures forall d :: d in CleanEach(s) ==> !Unspeakable(d)
    decreases |s|
  {
    if s != [] {
      CleanEachSpeakable(s[1..]);
    }
  }

  /** Text replacement none of the five characters is spoken as it is. */
  lemma {:induction false} CleanEachKeeps(s: string)
    requires forall d :: d in s ==> !Unspeakable(d)
    ensures CleanEach(s) == s
    decreases |s|
  {
    if s != [] {
      assert s[0] in s;
      assert forall d :: d in s[1..] ==> d in s;
      CleanEachKeeps(s[1..]);
    }
  }

  /** Every other character is kept, in order: on text without the five
      characters the rewrite is the identity. */
  lemma CleanResponseKeeps(s: string)
    requires forall d :: d in s ==> !Unspeakable(d)
    ensures CleanResponse(s) == s
  {
    CleanResponseIsPerCharacter(s);
    CleanEachKeeps(s);
  }

  /** Cleaning twice is cleaning once. */
  lemma CleanResponseIdempotent(s: string)
    ensures CleanResponse(CleanResponse(s)) == CleanResponse(s)
  {
    CleanResponseSpeakable(s);
    CleanResponseKeeps(CleanResponse(s));
  }
}
