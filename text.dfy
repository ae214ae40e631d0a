/**
 * The Python string operations the core uses, on `string` (a sequence of
 * Unicode scalar values): `upper`, `lower`, `replace`, `strip`, the `in`
 * substring test, `join`, and code-point ordering of strings.
 */
module Text {

  /** `str.upper` for one character: ASCII letters and `é` (see README, Left out). */
  function UpperChar(c: char): (r: char)
    ensures 'a' <= c <= 'z' ==> 'A' <= r <= 'Z'
    ensures !('a' <= c <= 'z') && c != 'é' ==> r == c
  {
    if 'a' <= c <= 'z' then (c as int - 32) as char
    else if c == 'é' then 'É'
    else c
  }

  /** `str.lower` for one character: ASCII letters and `É`. */
  function LowerChar(c: char): (r: char)
    ensures 'A' <= c <= 'Z' ==> 'a' <= r <= 'z'
    ensures !('A' <= c <= 'Z') && c != 'É' ==> r == c
  {
    if 'A' <= c <= 'Z' then (c as int + 32) as char
    else if c == 'É' then 'é'
    else c
  }

  function Upper(s: string): (r: string)
    ensures |r| == |s| && forall i | 0 <= i < |s| :: r[i] == UpperChar(s[i])
  {
    seq(|s|, i requires 0 <= i < |s| => UpperChar(s[i]))
  }

  function Lower(s: string): (r: string)
    ensures |r| == |s| && forall i | 0 <= i < |s| :: r[i] == LowerChar(s[i])
  {
    seq(|s|, i requires 0 <= i < |s| => LowerChar(s[i]))
  }

  /** Upper-casing preserves every character that is not a lower-case ASCII letter or `é`. */
  lemma UpperKeepsAbsent(s: string, x: char)
    requires x !in s && !('A' <= x <= 'Z') && x != 'É'
    ensures x !in Upper(s)
  {
    forall i | 0 <= i < |s| ensures Upper(s)[i] != x {
      assert s[i] != x;
    }
  }

  /**
   * Python's `s.replace(pat, rep)`: scan left to right, replace every
   * non-overlapping occurrence of `pat` and resume after it. An empty
   * pattern matches before every character and at the end.
   */
  function Replace(s: string, pat: string, rep: string): string
    decreases |s|
  {
    if pat == [] then
      (if s == [] then rep else rep + [s[0]] + Replace(s[1..], pat, rep))
    else if |s| < |pat| then s
    else if s[..|pat|] == pat then rep + Replace(s[|pat|..], pat, rep)
    else [s[0]] + Replace(s[1..], pat, rep)
  }

  /** Replacing a one-character pattern by text that lacks it leaves no occurrence of it. */
  lemma {:induction false} ReplaceRemovesChar(s: string, c: char, rep: string)
    requires c !in rep
    ensures c !in Replace(s, [c], rep)
    decreases |s|
  {
    if |s| >= 1 {
      ReplaceRemovesChar(s[1..], c, rep);
      if s[..1] == [c] {
        assert Replace(s, [c], rep) == rep + Replace(s[1..], [c], rep);
      } else {
        assert s[0] != c;
        assert Replace(s, [c], rep) == [s[0]] + Replace(s[1..], [c], rep);
      }
    }
  }

  /** Replacing a one-character pattern that does not occur changes nothing. */
  lemma {:induction false} ReplaceNoMatch(s: string, c: char, rep: string)
    requires c !in s
    ensures Replace(s, [c], rep) == s
    decreases |s|
  {
    if s != [] {
      ReplaceNoMatch(s[1..], c, rep);
      assert s[0] in s;
      assert s[..1][0] == s[0];
      assert s == [s[0]] + s[1..];
    }
  }

  /** What a one-character `replace` makes of a single character. */
  function ReplacedChar(x: char, c: char, rep: string): string
  {
    if x == c then rep else [x]
  }

  /** A one-character pattern is replaced character by character, from the left. */
  lemma ReplaceCharCons(x: char, s: string, c: char, rep: string)
    ensures Replace([x] + s, [c], rep) == ReplacedChar(x, c, rep) + Replace(s, [c], rep)
  {
    var t := [x] + s;
    assert t[..1] == [x];
    assert t[1..] == s;
  }

  /** Replacing one character of a one-character string. */
  lemma ReplaceOne(x: char, c: char, rep: string)
    ensures Replace([x], [c], rep) == ReplacedChar(x, c, rep)
  {
    ReplaceCharCons(x, [], c, rep);
    assert [x] + [] == [x];
  }

  /** A one-character pattern is replaced in each part of a concatenation separately. */
  lemma {:induction false} ReplaceCharAppend(a: string, b: string, c: char, rep: string)
    ensures Replace(a + b, [c], rep) == Replace(a, [c], rep) + Replace(b, [c], rep)
    decreases |a|
  {
    if a == [] {
      assert a + b == b;
    } else {
      assert a + b == [a[0]] + (a[1..] + b);
      assert a == [a[0]] + a[1..];
      ReplaceCharCons(a[0], a[1..] + b, c, rep);
      ReplaceCharCons(a[0], a[1..], c, rep);
      ReplaceCharAppend(a[1..], b, c, rep);
    }
  }

  /** `replace` never introduces a character that is absent from both the text and the replacement. */
  lemma {:induction false} ReplaceKeepsAbsent(s: string, pat: string, rep: string, x: char)
    requires x !in s && x !in rep
    ensures x !in Replace(s, pat, rep)
    decreases |s|
  {
    if pat == [] {
      if s != [] {
        ReplaceKeepsAbsent(s[1..], pat, rep, x);
        assert Replace(s, pat, rep) == rep + [s[0]] + Replace(s[1..], pat, rep);
      }
    } else if |s| < |pat| {
    } else if s[..|pat|] == pat {
      ReplaceKeepsAbsent(s[|pat|..], pat, rep, x);
      assert Replace(s, pat, rep) == rep + Replace(s[|pat|..], pat, rep);
    } else {
      ReplaceKeepsAbsent(s[1..], pat, rep, x);
      assert Replace(s, pat, rep) == [s[0]] + Replace(s[1..], pat, rep);
    }
  }

  /** A run of `n` copies of `c`. */
  function Run(c: char, n: nat): (r: string)
    ensures |r| == n && forall i | 0 <= i < n :: r[i] == c
  {
    seq(n, _ => c)
  }

  /**
   * Collapsing "__" to "_" is a single left-to-right pass: a run of n
   * underscores becomes a run of ceil(n/2), not a single underscore.
   */
  lemma {:induction false} CollapseRun(n: nat)
    ensures Replace(Run('_', n), "__", "_") == Run('_', (n + 1) / 2)
    decreases n
  {
    if n >= 2 {
      CollapseRun(n - 2);
      var s := Run('_', n);
      assert s[..2] == "__";
      assert s[2..] == Run('_', n - 2);
      assert Replace(s, "__", "_") == "_" + Replace(Run('_', n - 2), "__", "_");
      assert Run('_', (n + 1) / 2) == "_" + Run('_', (n - 1) / 2);
    } else if n == 1 {
      assert Run('_', 1) == "_";
    } else {
      assert Run('_', 0) == [];
    }
  }

  /** Python's `lstrip(c)` for one character. */
  function StripLeft(s: string, c: char): (r: string)
    ensures |r| <= |s| && r == s[|s| - |r|..]
    ensures r == [] || r[0] != c
    decreases |s|
  {
    if s != [] && s[0] == c then StripLeft(s[1..], c) else s
  }

  /** Python's `rstrip(c)` for one character. */
  function StripRight(s: string, c: char): (r: string)
    ensures |r| <= |s| && r == s[..|r|]
    ensures r == [] || r[|r| - 1] != c
    decreases |s|
  {
    if s != [] && s[|s| - 1] == c then StripRight(s[..|s| - 1], c) else s
  }

  /** Python's `strip(c)`: both ends. */
  function Strip(s: string, c: char): string
  {
    StripRight(StripLeft(s, c), c)
  }

  /** After `strip(c)` the text neither starts nor ends with `c`. */
  lemma StripEnds(s: string, c: char)
    ensures var r := Strip(s, c); r == [] || (r[0] != c && r[|r| - 1] != c)
  {
    var l := StripLeft(s, c);
    var r := StripRight(l, c);
    if r != [] { assert r[0] == l[0]; }
  }

  /** Stripping never introduces a character: the result is a piece of the input. */
  lemma StripKeepsAbsent(s: string, c: char, x: char)
    requires x !in s
    ensures x !in Strip(s, c)
  {
    var l := StripLeft(s, c);
    forall k | 0 <= k < |l| ensures l[k] != x {
      assert l[k] == s[|s| - |l| + k];
    }
    var r := StripRight(l, c);
    forall k | 0 <= k < |r| ensures r[k] != x {
      assert r[k] == l[k];
    }
  }

  /** `p` is a prefix of `s`. */
  predicate IsPrefix(p: string, s: string)
  {
    |p| <= |s| && s[..|p|] == p
  }

  /** Python's `sub in s`: `sub` occurs somewhere in `s`, not only at the start. */
  predicate Contains(s: string, sub: string)
    decreases |s|
  {
    IsPrefix(sub, s) || (s != [] && Contains(s[1..], sub))
  }

  /** `sub` occurs in `s` starting at position `i`. */
  predicate OccursAt(s: string, sub: string, i: int)
  {
    0 <= i <= |s| - |sub| && s[i..i + |sub|] == sub
  }

  /** `Contains` means an occurrence at some position. */
  lemma {:induction false} ContainsAt(s: string, sub: string)
    ensures Contains(s, sub) <==> exists i :: OccursAt(s, sub, i)
    decreases |s|
  {
    if s != [] {
      ContainsAt(s[1..], sub);
      if exists i :: OccursAt(s, sub, i) {
        var i :| OccursAt(s, sub, i);
        if i > 0 {
          assert s[1..][i - 1..i - 1 + |sub|] == s[i..i + |sub|];
          assert OccursAt(s[1..], sub, i - 1);
        } else {
          assert IsPrefix(sub, s);
        }
      }
      if Contains(s[1..], sub) {
        var i :| OccursAt(s[1..], sub, i);
        assert s[i + 1..i + 1 + |sub|] == s[1..][i..i + |sub|];
        assert OccursAt(s, sub, i + 1);
      }
      if IsPrefix(sub, s) {
        assert OccursAt(s, sub, 0);
      }
    } else {
      if exists i :: OccursAt(s, sub, i) {
        var i :| OccursAt(s, sub, i);
        assert IsPrefix(sub, s);
      }
      if IsPrefix(sub, s) {
        assert OccursAt(s, sub, 0);
      }
    }
  }

  /** A string lacking one of the characters of `sub` does not contain `sub`. */
  lemma {:induction false} AbsentCharNotContained(s: string, sub: string, c: char)
    requires c in sub && c !in s
    ensures !Contains(s, sub)
    decreases |s|
  {
    var k :| 0 <= k < |sub| && sub[k] == c;
    if |sub| <= |s| {
      assert s[..|sub|][k] == s[k];
      assert s[k] in s;
    }
    if s != [] {
      assert forall x | x in s[1..] :: x in s;
      AbsentCharNotContained(s[1..], sub, c);
    }
  }

  /** Lower-casing a string without upper-case letters changes nothing. */
  lemma LowerStep(s: string)
    requires forall i | 0 <= i < |s| :: !('A' <= s[i] <= 'Z') && s[i] != 'É'
    ensures Lower(s) == s
  {
  }

  /** Python's `sep.join(parts)`. */
  function Join(sep: string, parts: seq<string>): string
    decreases |parts|
  {
    if parts == [] then ""
    else if |parts| == 1 then parts[0]
    else parts[0] + sep + Join(sep, parts[1..])
  }

  /** Number of occurrences of the character `c` in `s`. */
  function Occurrences(s: string, c: char): nat
    decreases |s|
  {
    if s == [] then 0 else (if s[0] == c then 1 else 0) + Occurrences(s[1..], c)
  }

  lemma {:induction false} OccurrencesAppend(a: string, b: string, c: char)
    ensures Occurrences(a + b, c) == Occurrences(a, c) + Occurrences(b, c)
    decreases |a|
  {
    if a != [] {
      OccurrencesAppend(a[1..], b, c);
      assert (a + b)[1..] == a[1..] + b;
    } else {
      assert a + b == b;
    }
  }

  /** Upper-casing leaves the count of a character that is no letter unchanged. */
  lemma {:induction false} UpperOccurrences(s: string, c: char)
    requires !('a' <= c <= 'z') && !('A' <= c <= 'Z') && c != 'é' && c != 'É'
    ensures Occurrences(Upper(s), c) == Occurrences(s, c)
    decreases |s|
  {
    if s != [] {
      assert Upper(s)[1..] == Upper(s[1..]);
      UpperOccurrences(s[1..], c);
    }
  }

  /** Python's ordering of strings: code point by code point, a proper prefix first. */
  predicate LexLess(a: string, b: string)
    decreases |a|
  {
    if a == [] then b != []
    else if b == [] then false
    else if a[0] != b[0] then a[0] < b[0]
    else LexLess(a[1..], b[1..])
  }

  lemma {:induction false} LexLessIrreflexive(a: string)
    ensures !LexLess(a, a)
    decreases |a|
  {
    if a != [] { LexLessIrreflexive(a[1..]); }
  }

  lemma {:induction false} LexLessTransitive(a: string, b: string, c: string)
    requires LexLess(a, b) && LexLess(b, c)
    ensures LexLess(a, c)
    decreases |a|
  {
    if a != [] && b != [] && c != [] && a[0] == b[0] && b[0] == c[0] {
      LexLessTransitive(a[1..], b[1..], c[1..]);
    }
  }

  lemma {:induction false} LexLessTotal(a: string, b: string)
    requires a != b
    ensures LexLess(a, b) || LexLess(b, a)
    decreases |a|
  {
    if a != [] && b != [] && a[0] == b[0] {
      assert a == [a[0]] + a[1..] && b == [b[0]] + b[1..];
      LexLessTotal(a[1..], b[1..]);
    }
  }
}
