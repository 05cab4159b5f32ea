/** The JavaScript string operations the chat components rely on:
    `String.prototype.trim`, `startsWith`, `split` with a one-character
    separator and `Array.prototype.join`. Strings are sequences of code
    points. */
module JsString {

  /** ECMAScript WhiteSpace and LineTerminator code points (ECMA-262,
      sections 12.2 and 12.3). `trim()` and the regular-expression class
      `\s` both use exactly this set. */
  predicate IsWhitespace(c: char) {
    || c == '\t' || c == '\n' || c == '\U{B}' || c == '\U{C}' || c == '\r'
    || c == ' ' || c == '\U{A0}' || c == '\U{1680}'
    || ('\U{2000}' <= c <= '\U{200A}')
    || c == '\U{2028}' || c == '\U{2029}' || c == '\U{202F}'
    || c == '\U{205F}' || c == '\U{3000}' || c == '\U{FEFF}'
  }

  /** Every character of `s` at an index in `[lo, hi)` is whitespace. */
  ghost predicate BlankIn(s: string, lo: int, hi: int) {
    forall i :: lo <= i < hi && 0 <= i < |s| ==> IsWhitespace(s[i])
  }

  /** Every character of `s` is whitespace (the empty string included). */
  ghost predicate Blank(s: string) {
    BlankIn(s, 0, |s|)
  }

  /** The first index at or after `i` that does not hold whitespace, or
      `|s|` when there is none. */
  function SkipBlank(s: string, i: nat): (k: nat)
    requires i <= |s|
    ensures i <= k <= |s| && BlankIn(s, i, k)
    ensures k == |s| || !IsWhitespace(s[k])
    decreases |s| - i
  {
    if i < |s| && IsWhitespace(s[i]) then SkipBlank(s, i + 1) else i
  }

  /** The last index at or before `j` that ends a non-whitespace character:
      everything from it up to `j` is whitespace. */
  function SkipBlankBack(s: string, j: nat): (k: nat)
    requires j <= |s|
    ensures k <= j && BlankIn(s, k, j)
    ensures k == 0 || !IsWhitespace(s[k - 1])
  {
    if j > 0 && IsWhitespace(s[j - 1]) then SkipBlankBack(s, j - 1) else j
  }

  /** Drops the leading whitespace run. */
  function TrimStart(s: string): (r: string)
    ensures |r| <= |s| && r == s[|s| - |r|..]
    ensures BlankIn(s, 0, |s| - |r|)
    ensures r == [] || !IsWhitespace(r[0])
  {
    s[SkipBlank(s, 0)..]
  }

  /** Drops the trailing whitespace run. */
  function TrimEnd(s: string): (r: string)
    ensures |r| <= |s| && r == s[..|r|]
    ensures BlankIn(s, |r|, |s|)
    ensures r == [] || !IsWhitespace(r[|r| - 1])
  {
    s[..SkipBlankBack(s, |s|)]
  }

  /** `s.trim()`: the middle of `s` left once its leading and its trailing
      whitespace runs are removed. */
  function Trim(s: string): (r: string)
    ensures var a := |s| - |TrimStart(s)|;
            && a + |r| <= |s| && r == s[a..a + |r|]
            && BlankIn(s, 0, a) && BlankIn(s, a + |r|, |s|)
    ensures r == [] <==> Blank(s)
    ensures r != [] ==> !IsWhitespace(r[0]) && !IsWhitespace(r[|r| - 1])
  {
    var t := TrimStart(s);
    var r := TrimEnd(t);
    var a := |s| - |t|;
    assert forall i :: 0 <= i < |t| ==> t[i] == s[a + i];
    r
  }

  /** `s.startsWith(p)`: `p` is no longer than `s` and agrees with it
      character by character. */
  predicate StartsWith(s: string, p: string): (b: bool)
    ensures b <==> |p| <= |s| && forall i :: 0 <= i < |p| ==> s[i] == p[i]
  {
    |p| <= |s| && s[..|p|] == p
  }

  /** The scan for the first non-whitespace character stops at the first
      one there is. */
  lemma SkipBlankFindsFirst(s: string, k: nat)
    requires k < |s| && BlankIn(s, 0, k) && !IsWhitespace(s[k])
    ensures SkipBlank(s, 0) == k
  {
    var n := SkipBlank(s, 0);
    assert n <= k by {
      assert !IsWhitespace(s[k]) && BlankIn(s, 0, n);
    }
    assert n >= k by {
      assert n == |s| || !IsWhitespace(s[n]);
    }
  }

  /** The first character of `s.trim()` is the first character of `s` that is
      not whitespace. */
  lemma TrimKeepsFirstNonBlank(s: string, k: nat)
    requires k < |s| && BlankIn(s, 0, k) && !IsWhitespace(s[k])
    ensures Trim(s) != [] && Trim(s)[0] == s[k]
  {
    SkipBlankFindsFirst(s, k);
    var t := TrimStart(s);
    assert t == s[k..] && t[0] == s[k];
    var r := TrimEnd(t);
    assert |r| > 0 by {
      assert BlankIn(t, |r|, |t|);
    }
  }

  /** `s.trim().startsWith(c)` for a non-whitespace `c` holds exactly when the
      first non-whitespace character of `s` is `c`. */
  lemma TrimStartsWithIff(s: string, c: char)
    requires !IsWhitespace(c)
    ensures StartsWith(Trim(s), [c]) <==>
            exists k :: 0 <= k < |s| && BlankIn(s, 0, k) && s[k] == c
  {
    var n := SkipBlank(s, 0);
    if StartsWith(Trim(s), [c]) {
      assert Trim(s)[0] == c;
      assert n < |s| by {
        assert TrimStart(s) != [];
      }
      TrimKeepsFirstNonBlank(s, n);
    }
    if exists k :: 0 <= k < |s| && BlankIn(s, 0, k) && s[k] == c {
      var k :| 0 <= k < |s| && BlankIn(s, 0, k) && s[k] == c;
      TrimKeepsFirstNonBlank(s, k);
      assert Trim(s)[..1] == [c];
    }
  }

  /** Number of occurrences of `c` in `s`. */
  function Count(s: string, c: char): nat {
    if s == [] then 0 else (if s[0] == c then 1 else 0) + Count(s[1..], c)
  }

  /** `s.split(sep)` for a one-character separator: at least one piece, and
      no piece contains the separator. An empty string splits into one empty
      piece. */
  function Split(s: string, sep: char): (r: seq<string>)
    ensures |r| >= 1
    ensures forall i :: 0 <= i < |r| ==> sep !in r[i]
    decreases |s|
  {
    if s == [] then [[]]
    else
      var rest := Split(s[1..], sep);
      if s[0] == sep then [[]] + rest
      else [[s[0]] + rest[0]] + rest[1..]
  }

  /** A split has one piece more than there are separators. */
  lemma {:induction false} SplitCount(s: string, sep: char)
    ensures |Split(s, sep)| == Count(s, sep) + 1
    decreases |s|
  {
    if s != [] {
      SplitCount(s[1..], sep);
    }
  }

  /** `pieces.join(sep)` for a one-character separator. */
  function Join(pieces: seq<string>, sep: char): string {
    if |pieces| == 0 then []
    else if |pieces| == 1 then pieces[0]
    else pieces[0] + [sep] + Join(pieces[1..], sep)
  }

  lemma JoinCons(a: string, rest: seq<string>, sep: char)
    requires |rest| >= 1
    ensures Join([a] + rest, sep) == a + [sep] + Join(rest, sep)
  {
    assert ([a] + rest)[1..] == rest;
  }

  /** Joining the pieces of a split with the same separator gives back the
      string: `s.split(sep).join(sep) == s`. */
  lemma {:induction false} JoinSplit(s: string, sep: char)
    ensures Join(Split(s, sep), sep) == s
    decreases |s|
  {
    if s != [] {
      var rest := Split(s[1..], sep);
      JoinSplit(s[1..], sep);
      if s[0] == sep {
        JoinCons([], rest, sep);
        assert s == [sep] + s[1..];
      } else if |rest| == 1 {
        assert s == [s[0]] + s[1..];
      } else {
        JoinCons([s[0]] + rest[0], rest[1..], sep);
        JoinCons(rest[0], rest[1..], sep);
        assert rest == [rest[0]] + rest[1..];
        assert s == [s[0]] + s[1..];
      }
    }
  }

  /** A string free of the separator splits into itself alone. */
  lemma {:induction false} SplitWithoutSeparator(a: string, sep: char)
    requires sep !in a
    ensures Split(a, sep) == [a]
    decreases |a|
  {
    if a != [] {
      SplitWithoutSeparator(a[1..], sep);
      assert a == [a[0]] + a[1..];
    }
  }

  /** Splitting `a + sep + b`, where `a` is free of the separator, yields `a`
      followed by the pieces of `b`. */
  lemma {:induction false} SplitAfterFirstSeparator(a: string, b: string, sep: char)
    requires sep !in a
    ensures Split(a + [sep] + b, sep) == [a] + Split(b, sep)
    decreases |a|
  {
    var s := a + [sep] + b;
    if a == [] {
      assert s[1..] == b;
    } else {
      SplitAfterFirstSeparator(a[1..], b, sep);
      assert s[1..] == a[1..] + [sep] + b;
      assert a == [a[0]] + a[1..];
    }
  }

  /** Splitting a join of separator-free pieces gives the pieces back: split
      and join are inverse in both directions. */
  lemma {:induction false} SplitJoin(pieces: seq<string>, sep: char)
    requires |pieces| >= 1
    requires forall i :: 0 <= i < |pieces| ==> sep !in pieces[i]
    ensures Split(Join(pieces, sep), sep) == pieces
    decreases |pieces|
  {
    if |pieces| == 1 {
      SplitWithoutSeparator(pieces[0], sep);
    } else {
      SplitJoin(pieces[1..], sep);
      SplitAfterFirstSeparator(pieces[0], Join(pieces[1..], sep), sep);
      assert pieces == [pieces[0]] + pieces[1..];
    }
  }
}
