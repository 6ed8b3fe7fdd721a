/** The answer comparison of the AI-puzzle locks: both the typed input and
    the puzzle's answer are lower-cased, then stripped of surrounding white
    space, and must then be equal. Lower-casing covers ASCII letters only;
    trimming removes exactly the characters ECMAScript's String.prototype.trim
    removes (its WhiteSpace and LineTerminator characters). */
module Answers {

  /** ECMAScript WhiteSpace and LineTerminator code points: tab, line
      feed, vertical tab, form feed, carriage return, space, no-break space,
      the Unicode space separators, the line and paragraph separators, and
      the byte order mark. */
  const SpaceChars: set<char> := {
    '\t', '\n', '\U{B}', '\U{C}', '\r', ' ', '\U{A0}', '\U{1680}',
    '\U{2000}', '\U{2001}', '\U{2002}', '\U{2003}', '\U{2004}', '\U{2005}',
    '\U{2006}', '\U{2007}', '\U{2008}', '\U{2009}', '\U{200A}',
    '\U{2028}', '\U{2029}', '\U{202F}', '\U{205F}', '\U{3000}', '\U{FEFF}' }

  predicate IsSpace(c: char) {
    c in SpaceChars
  }

  predicate AllSpace(s: string) {
    forall i :: 0 <= i < |s| ==> IsSpace(s[i])
  }

  function LowerChar(c: char): char {
    if 'A' <= c <= 'Z' then (c as int + 32) as char else c
  }

  /** Lower-casing, restricted to the ASCII letters A to Z: no capital
      is left, every other character is kept, and each capital becomes the
      letter 32 code points above it. */
  function Lower(s: string): (r: string)
    ensures |r| == |s|
    ensures forall i :: 0 <= i < |r| ==> !('A' <= r[i] <= 'Z')
    ensures forall i :: 0 <= i < |s| && !('A' <= s[i] <= 'Z') ==> r[i] == s[i]
    ensures forall i :: 0 <= i < |s| && 'A' <= s[i] <= 'Z' ==> r[i] as int == s[i] as int + 32
  {
    seq(|s|, i requires 0 <= i < |s| => LowerChar(s[i]))
  }

  /** The first index from `i` on that does not hold white space (or the end). */
  function SkipSpaces(s: string, i: nat): (n: nat)
    requires i <= |s|
    ensures i <= n <= |s|
    ensures forall k :: i <= k < n ==> IsSpace(s[k])
    ensures n < |s| ==> !IsSpace(s[n])
    decreases |s| - i
  {
    if i < |s| && IsSpace(s[i]) then SkipSpaces(s, i + 1) else i
  }

  /** The start of the white space that ends at `j` (`j` itself if none). */
  function BackSpaces(s: string, j: nat): (n: nat)
    requires j <= |s|
    ensures n <= j
    ensures forall k :: n <= k < j ==> IsSpace(s[k])
    ensures n > 0 ==> !IsSpace(s[n - 1])
  {
    if j > 0 && IsSpace(s[j - 1]) then BackSpaces(s, j - 1) else j
  }

  /** A string whose ends are not white space (or the empty string). */
  predicate Trimmed(r: string) {
    r == [] || (!IsSpace(r[0]) && !IsSpace(r[|r| - 1]))
  }

  /** `s` without its leading and trailing white space: the result is a
      piece of `s` with no white space at either end. */
  function Trim(s: string): (r: string)
    ensures Trimmed(r) && |r| <= |s|
  {
    var a := SkipSpaces(s, 0);
    var e := BackSpaces(s, |s|);
    if a < e then s[a..e] else []
  }

  /** A run of white space in `s` is a white-space string. */
  lemma SpaceSlice(s: string, i: nat, j: nat)
    requires i <= j <= |s|
    requires forall k :: i <= k < j ==> IsSpace(s[k])
    ensures AllSpace(s[i..j])
  {
    forall k | 0 <= k < j - i ensures IsSpace(s[i..j][k]) {
      assert s[i..j][k] == s[i + k];
    }
  }

  /** Trim splits its argument into white space `x`, the trimmed core,
      and white space `y`. */
  lemma TrimSplits(s: string) returns (x: string, y: string)
    ensures s == x + Trim(s) + y
    ensures AllSpace(x) && AllSpace(y)
  {
    var a := SkipSpaces(s, 0);
    var e := BackSpaces(s, |s|);
    if a < |s| {
      assert a < e by {
        assert !IsSpace(s[a]);
      }
      x, y := s[0..a], s[e..|s|];
      SpaceSlice(s, 0, a);
      SpaceSlice(s, e, |s|);
      assert Trim(s) == s[a..e];
      assert s == x + s[a..e] + y;
    } else {
      x, y := s, [];
      assert Trim(s) == [];
      assert s + [] + [] == s;
    }
  }

  /** Trim keeps exactly the core of a string padded with white space. */
  lemma TrimUnique(x: string, r: string, y: string)
    requires AllSpace(x) && AllSpace(y) && Trimmed(r)
    ensures Trim(x + r + y) == r
  {
    var s := x + r + y;
    var a := SkipSpaces(s, 0);
    var e := BackSpaces(s, |s|);
    if r == [] {
      assert a == |s|;
    } else {
      assert s[|x|] == r[0];
      assert a == |x|;
      assert s[|x| + |r| - 1] == r[|r| - 1];
      assert e == |x| + |r|;
      assert s[a..e] == r;
    }
  }

  /** Trimming twice is trimming once. */
  lemma TrimIdempotent(s: string)
    ensures Trim(Trim(s)) == Trim(s)
  {
  }

  lemma AllSpaceConcat(a: string, b: string)
    requires AllSpace(a) && AllSpace(b)
    ensures AllSpace(a + b)
  {
  }

  lemma Regroup(p: string, x: string, t: string, y: string, q: string)
    ensures p + (x + t + y) + q == (p + x) + t + (y + q)
  {
  }

  /** White space around a string does not change its trimmed form. */
  lemma TrimPadding(p: string, s: string, q: string)
    requires AllSpace(p) && AllSpace(q)
    ensures Trim(p + s + q) == Trim(s)
  {
    var x, y := TrimSplits(s);
    var t := Trim(s);
    var px, yq := p + x, y + q;
    Regroup(p, x, t, y, q);
    AllSpaceConcat(p, x);
    AllSpaceConcat(y, q);
    TrimUnique(px, t, yq);
  }

  /** The comparison key of a typed text: lower-cased, then trimmed. */
  function Normalize(s: string): string {
    Trim(Lower(s))
  }

  /** The typed input opens the lock when its key equals the answer's key. */
  predicate Matches(input: string, answer: string) {
    Normalize(input) == Normalize(answer)
  }

  /** Lower-casing leaves white space alone and distributes over concatenation. */
  lemma LowerConcat(p: string, s: string, q: string)
    ensures Lower(p + s + q) == Lower(p) + Lower(s) + Lower(q)
    ensures AllSpace(p) ==> AllSpace(Lower(p))
  {
  }

  /** Lower-casing turns no character into white space and no white space
      into anything else, so it keeps a text trimmed. */
  lemma LowerKeepsTrimmed(t: string)
    requires Trimmed(t)
    ensures Trimmed(Lower(t))
  {
    if t != [] {
      var r := Lower(t);
      assert !IsSpace(r[0]) by {
        if 'A' <= t[0] <= 'Z' { assert 'a' <= r[0] <= 'z'; }
      }
      assert !IsSpace(r[|r| - 1]) by {
        if 'A' <= t[|t| - 1] <= 'Z' { assert 'a' <= r[|r| - 1] <= 'z'; }
      }
    }
  }

  /** Trimming and lower-casing can be applied in either order: the
      program's lower-case-then-trim key is the trimmed text lower-cased. */
  lemma LowerTrimCommute(s: string)
    ensures Trim(Lower(s)) == Lower(Trim(s))
  {
    var x, y := TrimSplits(s);
    var t := Trim(s);
    LowerConcat(x, t, y);
    LowerConcat(y, [], []);
    assert Lower(y) + [] == Lower(y);
    LowerKeepsTrimmed(t);
    TrimUnique(Lower(x), Lower(t), Lower(y));
  }

  /** An answer typed with surrounding white space and in any ASCII case
      still matches: whenever `s` and `t` agree once lower-cased, padding
      `s` with white space keeps it a match for `t`. */
  lemma MatchesPaddedAnyCase(p: string, s: string, q: string, t: string)
    requires AllSpace(p) && AllSpace(q)
    requires Lower(s) == Lower(t)
    ensures Matches(p + s + q, t)
  {
    LowerConcat(p, s, q);
    LowerConcat(q, [], []);
    assert Lower(q) + [] == Lower(q);
    TrimPadding(Lower(p), Lower(s), Lower(q));
  }

  /** Trimmed keys with different content never match: a typed core that
      differs from the answer's core leaves the lock closed. */
  lemma NoMatchOnDifferentCore(x: string, core: string, y: string, answer: string)
    requires AllSpace(x) && AllSpace(y) && Trimmed(Lower(core))
    requires Lower(core) != Normalize(answer)
    ensures !Matches(x + core + y, answer)
  {
    LowerConcat(x, core, y);
    LowerConcat(y, [], []);
    assert Lower(y) + [] == Lower(y);
    TrimUnique(Lower(x), Lower(core), Lower(y));
  }

  /** The worked example: " Paris " matches the answer "paris". */
  lemma ParisExample()
    ensures Matches(" Paris ", "paris")
  {
    var pad, upper, lower := " ", "Paris", "paris";
    assert pad + upper + pad == " Paris ";
    assert Lower(upper) == lower by {
      forall i | 0 <= i < 5 ensures Lower(upper)[i] == lower[i] {}
    }
    assert Lower(lower) == lower;
    assert AllSpace(pad);
    MatchesPaddedAnyCase(pad, upper, pad, lower);
  }
}
