/**
 * Identifier case conversion: camelCase / PascalCase to snake_case
 * (`_snakeCase` and its twin `_snakeCaseB` in src/util/str.util.ts).
 *
 * Case mapping covers the ASCII letters only; every other character is
 * its own lower and upper case here.
 */
module StrUtil {

  predicate IsAsciiUpper(c: char) { 'A' <= c <= 'Z' }

  predicate IsAsciiLower(c: char) { 'a' <= c <= 'z' }

  /** The test `/[a-z]/i.test(c)`: an ASCII letter of either case, that is, a character that has two cases. */
  predicate IsWordChar(c: char): (r: bool)
    ensures r <==> ToLower(c) != ToUpper(c)
  {
    IsAsciiLower(c) || IsAsciiUpper(c)
  }

  /** `c.toLowerCase()` on one character. */
  function ToLower(c: char): (r: char)
    ensures !IsAsciiUpper(r)
    ensures IsAsciiUpper(c) ==> IsAsciiLower(r) && r as int - 'a' as int == c as int - 'A' as int
    ensures !IsAsciiUpper(c) ==> r == c
  {
    if IsAsciiUpper(c) then (c as int + 32) as char else c
  }

  /** `c.toUpperCase()` on one character. */
  function ToUpper(c: char): (r: char)
    ensures !IsAsciiLower(r)
    ensures IsAsciiLower(c) ==> IsAsciiUpper(r) && r as int - 'A' as int == c as int - 'a' as int
    ensures !IsAsciiLower(c) ==> r == c
  {
    if IsAsciiLower(c) then (c as int - 32) as char else c
  }

  /** `s.toLowerCase()`: the whole string mapped character by character. */
  function LowerString(s: string): (r: string)
    ensures |r| == |s|
    ensures forall i :: 0 <= i < |s| ==> r[i] == ToLower(s[i])
  {
    seq(|s|, i requires 0 <= i < |s| => ToLower(s[i]))
  }

  /** `s.toUpperCase()`: the whole string mapped character by character. */
  function UpperString(s: string): (r: string)
    ensures |r| == |s|
    ensures forall i :: 0 <= i < |s| ==> r[i] == ToUpper(s[i])
  {
    seq(|s|, i requires 0 <= i < |s| => ToUpper(s[i]))
  }

  /** A word boundary sits before position i: an upper-case letter right after a lower-case one. */
  predicate Boundary(s: string, i: int)
  {
    1 <= i < |s| && IsAsciiUpper(s[i]) && IsAsciiLower(s[i - 1])
  }

  /** The separator emitted before position i. */
  function Separator(s: string, i: int): string
  {
    if Boundary(s, i) then "_" else ""
  }

  /**
   * The snake_case form of s, built left to right as the loop builds it:
   * each character lower-cased, an `_` before it at a word boundary.
   */
  function SnakeCased(s: string): (r: string)
    ensures |s| > 0 ==> |r| > 0 && r[0] == ToLower(s[0])
    decreases |s|
  {
    if |s| < 2 then LowerString(s)
    else SnakeCased(s[..|s| - 1]) + Separator(s, |s| - 1) + [ToLower(s[|s| - 1])]
  }

  /** Number of word boundaries in s. */
  function BoundaryCount(s: string): nat
    decreases |s|
  {
    if |s| < 2 then 0
    else BoundaryCount(s[..|s| - 1]) + (if Boundary(s, |s| - 1) then 1 else 0)
  }

  /** Where the lower-cased s[i] lands in the output: i plus the boundaries up to and including i. */
  function OutPos(s: string, i: nat): nat
    requires i < |s|
  {
    i + BoundaryCount(s[..i + 1])
  }

  /**
   * `_snakeCase(s)`: lower-cases each character, and writes `_` before an
   * upper-case letter that follows a lower-case letter.
   */
  method SnakeCase(s: string) returns (out: string)
    ensures out == SnakeCased(s)
  {
    var len := |s|;
    if len < 2 {
      return LowerString(s);
    }
    out := [ToLower(s[0])];
    for i := 1 to len
      invariant out == SnakeCased(s[..i])
    {
      var ch := s[i];
      var prevChar := s[i - 1];
      var upperChar := ToUpper(ch);
      var lowerChar := ToLower(ch);
      var lowerPrevChar := ToLower(prevChar);
      var charIsWordChar := IsWordChar(ch);
      var prevCharIsWordChar := IsWordChar(prevChar);
      if charIsWordChar && ch == upperChar {
        if prevCharIsWordChar && prevChar == lowerPrevChar {
          out := out + "_";
        }
      }
      out := out + [lowerChar];
      assert s[..i + 1][..i] == s[..i];
    }
    assert s[..len] == s;
  }

  /**
   * `_snakeCaseB(s)`: the same algorithm, reading the case-mapped characters
   * from whole-string upper- and lower-case copies of s.
   */
  method SnakeCaseB(s: string) returns (out: string)
    ensures out == SnakeCased(s)
  {
    var len := |s|;
    if len < 2 {
      return LowerString(s);
    }
    var upper := UpperString(s);
    var lower := LowerString(s);
    out := [lower[0]];
    for i := 1 to len
      invariant out == SnakeCased(s[..i])
    {
      var ch := s[i];
      var prevChar := s[i - 1];
      var upperChar := upper[i];
      var lowerChar := lower[i];
      var lowerPrevChar := lower[i - 1];
      var charIsWordChar := IsWordChar(ch);
      var prevCharIsWordChar := IsWordChar(prevChar);
      if charIsWordChar && ch == upperChar {
        if prevCharIsWordChar && prevChar == lowerPrevChar {
          out := out + "_";
        }
      }
      out := out + [lowerChar];
      assert s[..i + 1][..i] == s[..i];
    }
    assert s[..len] == s;
  }

  /** Strings shorter than two characters are only lower-cased. */
  lemma ShortIsLowered(s: string)
    requires |s| < 2
    ensures SnakeCased(s) == LowerString(s)
    ensures |s| == 1 ==> SnakeCased(s) == [ToLower(s[0])]
  {
  }

  /** OutPos is the same whether computed on s or on any prefix of s that holds position i. */
  lemma OutPosPrefix(s: string, m: nat, i: nat)
    requires i < m <= |s|
    ensures OutPos(s[..m], i) == OutPos(s, i)
    ensures Boundary(s[..m], i) <==> Boundary(s, i)
  {
    assert s[..m][..i + 1] == s[..i + 1];
  }

  /** Consecutive input characters land one apart, or two apart across a word boundary. */
  lemma OutPosStep(s: string, i: nat)
    requires 1 <= i < |s|
    ensures OutPos(s, i) == OutPos(s, i - 1) + (if Boundary(s, i) then 2 else 1)
  {
    var q := s[..i + 1];
    assert q[..i] == s[..i];
    OutPosPrefix(s, i + 1, i);
  }

  /** The output is the input plus one character per word boundary. */
  lemma {:induction false} SnakeCasedLength(s: string)
    ensures |SnakeCased(s)| == |s| + BoundaryCount(s)
    decreases |s|
  {
    if |s| >= 2 {
      SnakeCasedLength(s[..|s| - 1]);
    }
  }

  /** Input character i, lower-cased, sits at OutPos(s, i) of the output. */
  lemma {:induction false} SnakeCasedAt(s: string, i: nat)
    requires i < |s|
    ensures OutPos(s, i) < |SnakeCased(s)| && SnakeCased(s)[OutPos(s, i)] == ToLower(s[i])
    decreases |s|
  {
    SnakeCasedLength(s);
    var n := |s| - 1;
    if |s| == 1 {
      assert s[..1] == s;
    } else if i == n {
      assert s[..n + 1] == s;
      SnakeCasedLength(s[..n]);
    } else {
      var p := s[..n];
      SnakeCasedAt(p, i);
      OutPosPrefix(s, n, i);
    }
  }

  /** Before the character that starts a new word the output holds the separator `_`. */
  lemma {:induction false} SnakeCasedSeparatorAt(s: string, i: nat)
    requires 1 <= i < |s| && Boundary(s, i)
    ensures 1 <= OutPos(s, i) < |SnakeCased(s)| && SnakeCased(s)[OutPos(s, i) - 1] == '_'
    decreases |s|
  {
    SnakeCasedAt(s, i);
    var n := |s| - 1;
    var p := s[..n];
    OutPosStep(s, i);
    if i == n {
      assert s[..n + 1] == s;
      SnakeCasedLength(p);
    } else {
      OutPosPrefix(s, n, i);
      SnakeCasedSeparatorAt(p, i);
    }
  }

  /**
   * The layout of the output: the input's characters lower-cased, in order,
   * at the positions OutPos gives, the first at 0 and the last at the end,
   * with a `_` between two neighbours when, and only when, a word boundary
   * separates them.
   */
  lemma SnakeCasedLayout(s: string)
    ensures |SnakeCased(s)| == |s| + BoundaryCount(s)
    ensures forall i :: 0 <= i < |s| ==>
      OutPos(s, i) < |SnakeCased(s)| && SnakeCased(s)[OutPos(s, i)] == ToLower(s[i])
    ensures |s| > 0 ==> OutPos(s, 0) == 0 && OutPos(s, |s| - 1) == |SnakeCased(s)| - 1
    ensures forall i :: 1 <= i < |s| ==>
      OutPos(s, i) == OutPos(s, i - 1) + (if Boundary(s, i) then 2 else 1)
    ensures forall i :: 1 <= i < |s| && Boundary(s, i) ==> SnakeCased(s)[OutPos(s, i) - 1] == '_'
  {
    SnakeCasedLength(s);
    forall i | 0 <= i < |s|
      ensures OutPos(s, i) < |SnakeCased(s)| && SnakeCased(s)[OutPos(s, i)] == ToLower(s[i])
    {
      SnakeCasedAt(s, i);
    }
    if |s| > 0 {
      assert s[..|s|] == s;
    }
    forall i | 1 <= i < |s|
      ensures OutPos(s, i) == OutPos(s, i - 1) + (if Boundary(s, i) then 2 else 1)
    {
      OutPosStep(s, i);
    }
    forall i | 1 <= i < |s| && Boundary(s, i)
      ensures SnakeCased(s)[OutPos(s, i) - 1] == '_'
    {
      SnakeCasedSeparatorAt(s, i);
    }
  }

  /** The output never holds an upper-case ASCII letter. */
  lemma {:induction false} SnakeCasedHasNoUpper(s: string)
    ensures forall k :: 0 <= k < |SnakeCased(s)| ==> !IsAsciiUpper(SnakeCased(s)[k])
    decreases |s|
  {
    if |s| >= 2 {
      SnakeCasedHasNoUpper(s[..|s| - 1]);
    }
  }

  /** A string without upper-case ASCII letters is its own snake_case form. */
  lemma {:induction false} NoUpperIsFixed(t: string)
    requires forall k :: 0 <= k < |t| ==> !IsAsciiUpper(t[k])
    ensures SnakeCased(t) == t
    decreases |t|
  {
    if |t| < 2 {
      assert LowerString(t) == t;
    } else {
      var n := |t| - 1;
      NoUpperIsFixed(t[..n]);
      assert !Boundary(t, n);
      assert t[..n] + [t[n]] == t;
    }
  }

  /** Converting twice is the same as converting once. */
  lemma SnakeCasedIdempotent(s: string)
    ensures SnakeCased(SnakeCased(s)) == SnakeCased(s)
  {
    SnakeCasedHasNoUpper(s);
    NoUpperIsFixed(SnakeCased(s));
  }

  /** The output is never shorter than the input, so it is empty exactly when the input is. */
  lemma SnakeCasedNeverShorter(s: string)
    ensures |SnakeCased(s)| >= |s|
    ensures SnakeCased(s) == [] <==> s == []
  {
    SnakeCasedLayout(s);
  }

  /** The capital after the first lower-case word is preceded by a separator. */
  lemma CamelFirstWord()
    ensures SnakeCased("fooB") == "foo_b"
  {
    assert SnakeCased("fo") == "fo";
    assert "foo"[..2] == "fo";
    assert SnakeCased("foo") == "foo";
    assert "fooB"[..3] == "foo";
  }

  /** camelCase splits at each capital that follows a lower-case letter. */
  lemma CamelExample()
    ensures SnakeCased("fooBar") == "foo_bar"
  {
    CamelFirstWord();
    assert "fooBa"[..4] == "fooB";
    assert SnakeCased("fooBa") == "foo_ba";
    assert "fooBar"[..5] == "fooBa";
  }

  /** A capital after a digit starts no word. */
  lemma DigitExample()
    ensures SnakeCased("a1B") == "a1b"
  {
    assert SnakeCased("a1") == "a1";
    assert "a1B"[..2] == "a1";
  }

  /** A leading capital has nothing before it and starts no separator. */
  lemma PascalExample()
    ensures SnakeCased("FooBar") == "foo_bar"
  {
    assert SnakeCased("Fo") == "fo";
    assert "Foo"[..2] == "Fo";
    assert SnakeCased("Foo") == "foo";
    assert "FooB"[..3] == "Foo";
    assert SnakeCased("FooB") == "foo_b";
    assert "FooBa"[..4] == "FooB";
    assert SnakeCased("FooBa") == "foo_ba";
    assert "FooBar"[..5] == "FooBa";
  }

  /** Every later capital after a small letter starts a word. */
  lemma PascalThreeWords()
    ensures SnakeCased("FooBarBaz") == "foo_bar_baz"
  {
    PascalExample();
    assert "FooBarB"[..6] == "FooBar";
    assert SnakeCased("FooBarB") == "foo_bar_b";
    assert "FooBarBa"[..7] == "FooBarB";
    assert SnakeCased("FooBarBa") == "foo_bar_ba";
    assert "FooBarBaz"[..8] == "FooBarBa";
  }

  /** A run of capitals is one word: only its first letter follows a lower-case one. */
  lemma AcronymExample()
    ensures SnakeCased("fooBAR") == "foo_bar"
  {
    CamelFirstWord();
    assert "fooBA"[..4] == "fooB";
    assert SnakeCased("fooBA") == "foo_ba";
    assert "fooBAR"[..5] == "fooBA";
  }
}
