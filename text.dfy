/** The JavaScript string operations the console relies on:
    `String.prototype.trim`, `toLowerCase` and `includes`. */
module Text {

  /** The ECMAScript WhiteSpace and LineTerminator code points, which `trim` strips. */
  predicate IsWhitespace(c: char) {
    || c == '\t' || c == '\n' || c == '\U{000B}' || c == '\U{000C}' || c == '\r'
    || c == ' ' || c == '\U{00A0}' || c == '\U{1680}'
    || ('\U{2000}' <= c <= '\U{200A}')
    || c == '\U{2028}' || c == '\U{2029}' || c == '\U{202F}' || c == '\U{205F}'
    || c == '\U{3000}' || c == '\U{FEFF}'
  }

  predicate AllWhitespace(s: string) {
    forall i :: 0 <= i < |s| ==> IsWhitespace(s[i])
  }

  /** The length of the whitespace run at the start of `s`. */
  function LeadingWhitespace(s: string): (n: nat)
    ensures n <= |s|
    ensures forall i :: 0 <= i < n ==> IsWhitespace(s[i])
    ensures n < |s| ==> !IsWhitespace(s[n])
  {
    if |s| > 0 && IsWhitespace(s[0]) then 1 + LeadingWhitespace(s[1..]) else 0
  }

  /** The length of the whitespace run at the end of `s`. */
  function TrailingWhitespace(s: string): (n: nat)
    ensures n <= |s|
    ensures forall i :: |s| - n <= i < |s| ==> IsWhitespace(s[i])
    ensures n < |s| ==> !IsWhitespace(s[|s| - 1 - n])
  {
    if |s| > 0 && IsWhitespace(s[|s| - 1]) then 1 + TrailingWhitespace(s[..|s| - 1]) else 0
  }

  /** `s.trim()`: `s` with its leading and trailing whitespace removed. The
      result is the slice of `s` that starts after the leading run and stops
      before a trailing run; it is empty exactly when `s` is all whitespace,
      and otherwise starts and ends with a non-whitespace character. */
  function Trim(s: string): (r: string)
    ensures LeadingWhitespace(s) + |r| <= |s|
    ensures r == s[LeadingWhitespace(s)..LeadingWhitespace(s) + |r|]
    ensures forall i :: LeadingWhitespace(s) + |r| <= i < |s| ==> IsWhitespace(s[i])
    ensures r == [] <==> AllWhitespace(s)
    ensures r != [] ==> !IsWhitespace(r[0]) && !IsWhitespace(r[|r| - 1])
  {
    var a := LeadingWhitespace(s);
    var b := TrailingWhitespace(s[a..]);
    TrimSlice(s, a, b);
    s[a..|s| - b]
  }

  /** The facts `Trim` states, about the slice between the two whitespace runs. */
  lemma {:induction false} TrimSlice(s: string, a: nat, b: nat)
    requires a == LeadingWhitespace(s) && b == TrailingWhitespace(s[a..])
    ensures a + b <= |s|
    ensures forall i :: |s| - b <= i < |s| ==> IsWhitespace(s[i])
    ensures a + b == |s| <==> AllWhitespace(s)
    ensures a + b < |s| ==> !IsWhitespace(s[a]) && !IsWhitespace(s[|s| - b - 1])
  {
    TrailingRunOfSuffix(s, a, b);
    AllWhitespaceIffRunCoversAll(s, a);
    if a < |s| {
      InnerEnds(s, a, b);
    }
  }

  lemma {:induction false} TrailingRunOfSuffix(s: string, a: nat, b: nat)
    requires a <= |s| && b == TrailingWhitespace(s[a..])
    ensures forall i :: |s| - b <= i < |s| ==> IsWhitespace(s[i])
  {
    var t := s[a..];
    forall i | |s| - b <= i < |s| ensures IsWhitespace(s[i]) {
      assert s[i] == t[i - a];
    }
  }

  lemma {:induction false} AllWhitespaceIffRunCoversAll(s: string, a: nat)
    requires a == LeadingWhitespace(s)
    ensures a == |s| <==> AllWhitespace(s)
  {
  }

  lemma {:induction false} InnerEnds(s: string, a: nat, b: nat)
    requires a == LeadingWhitespace(s) && a < |s| && b == TrailingWhitespace(s[a..])
    ensures a + b < |s| && !IsWhitespace(s[a]) && !IsWhitespace(s[|s| - b - 1])
  {
    var t := s[a..];
    assert t[0] == s[a];
    assert s[|s| - b - 1] == t[|t| - 1 - b];
  }

  /** Trimming twice is trimming once. */
  lemma TrimIdempotent(s: string)
    ensures Trim(Trim(s)) == Trim(s)
  {
    var r := Trim(s);
    if r != [] {
      assert LeadingWhitespace(r) == 0;
      assert r[..|r|] == r;
      assert TrailingWhitespace(r[0..]) == 0 by { assert r[0..] == r; }
    }
  }

  function LowerChar(c: char): char {
    if 'A' <= c <= 'Z' then (c as int + 32) as char else c
  }

  /** `s.toLowerCase()`, restricted to the ASCII letters. */
  function ToLower(s: string): (r: string)
    ensures |r| == |s|
    ensures forall i :: 0 <= i < |s| ==> r[i] == LowerChar(s[i])
  {
    seq(|s|, i requires 0 <= i < |s| => LowerChar(s[i]))
  }

  /** Lowercasing twice is lowercasing once. */
  lemma ToLowerIdempotent(s: string)
    ensures ToLower(ToLower(s)) == ToLower(s)
  {
  }

  /** A string without uppercase ASCII letters is its own lowercase form. */
  lemma ToLowerOfLowercase(s: string)
    requires forall i :: 0 <= i < |s| ==> !('A' <= s[i] <= 'Z')
    ensures ToLower(s) == s
  {
  }

  /** `needle` occurs in `hay` starting at index `i`. */
  predicate OccursAt(hay: string, needle: string, i: int) {
    0 <= i && i + |needle| <= |hay| && hay[i..i + |needle|] == needle
  }

  /** `hay.includes(needle)`, by scanning the start positions from the left. */
  function Contains(hay: string, needle: string): (b: bool)
    ensures b ==> |needle| <= |hay|
    ensures needle == [] ==> b
  {
    assert hay[..0] == [];
    |needle| <= |hay| && (hay[..|needle|] == needle || (|hay| > 0 && Contains(hay[1..], needle)))
  }

  /** `Contains` holds exactly when `needle` occurs at some position of `hay`. */
  lemma {:induction false} ContainsIff(hay: string, needle: string)
    ensures Contains(hay, needle) <==> exists i :: OccursAt(hay, needle, i)
  {
    if |needle| <= |hay| {
      if hay[..|needle|] == needle {
        assert OccursAt(hay, needle, 0);
      } else if |hay| > 0 {
        ContainsIff(hay[1..], needle);
        ShiftOccurrence(hay, needle);
        if exists i :: OccursAt(hay, needle, i) {
          var i :| OccursAt(hay, needle, i);
          assert i != 0;
          assert OccursAt(hay[1..], needle, i - 1);
        }
        if exists j :: OccursAt(hay[1..], needle, j) {
          var j :| OccursAt(hay[1..], needle, j);
          assert OccursAt(hay, needle, j + 1);
        }
      }
    }
  }

  /** An occurrence at `i + 1` in `hay` is an occurrence at `i` in its tail. */
  lemma ShiftOccurrence(hay: string, needle: string)
    requires |hay| > 0
    ensures forall i :: 0 <= i ==> (OccursAt(hay[1..], needle, i) <==> OccursAt(hay, needle, i + 1))
  {
    forall i | 0 <= i
      ensures OccursAt(hay[1..], needle, i) <==> OccursAt(hay, needle, i + 1)
    {
      if 0 <= i && i + 1 + |needle| <= |hay| {
        assert hay[1..][i..i + |needle|] == hay[i + 1..i + 1 + |needle|];
      }
    }
  }
}
