/** The Python string operations the code relies on, with their exact
    semantics: `str.replace(pat, "")`, `str.split()`, iteration over the lines
    of a text file, and an order in which directory listings are enumerated. */
module Strings {

  predicate StartsWith(s: string, prefix: string)
  {
    |prefix| <= |s| && s[..|prefix|] == prefix
  }

  predicate EndsWith(s: string, suffix: string)
  {
    |suffix| <= |s| && s[|s| - |suffix|..] == suffix
  }

  /** `pat` occurs in `s` starting at index `i`. */
  predicate OccursAt(s: string, pat: string, i: int)
  {
    0 <= i && i + |pat| <= |s| && s[i..i + |pat|] == pat
  }

  /** `pat in s` for a non-empty pattern. */
  ghost predicate Occurs(s: string, pat: string)
  {
    exists i :: OccursAt(s, pat, i)
  }

  // ---------------------------------------------------------------------
  // str.replace(pat, "")
  // ---------------------------------------------------------------------

  /** `s.replace(pat, "")`: scanning left to right, every non-overlapping
      occurrence of `pat` is deleted. An empty `pat` leaves `s` as it is. */
  function RemoveAll(s: string, pat: string): (r: string)
    ensures |r| <= |s|
    decreases |s|
  {
    if pat == [] || |s| < |pat| then s
    else if s[..|pat|] == pat then RemoveAll(s[|pat|..], pat)
    else [s[0]] + RemoveAll(s[1..], pat)
  }

  /** When `pat` does not occur in `s`, nothing is removed. */
  lemma {:induction false} RemoveAllAbsent(s: string, pat: string)
    requires !Occurs(s, pat)
    ensures RemoveAll(s, pat) == s
    decreases |s|
  {
    if pat == [] || |s| < |pat| {
    } else {
      assert !OccursAt(s, pat, 0);
      assert s[..|pat|] != pat;
      forall i | OccursAt(s[1..], pat, i) ensures false {
        assert s[1..][i..i + |pat|] == s[i + 1..i + 1 + |pat|];
        assert OccursAt(s, pat, i + 1);
      }
      RemoveAllAbsent(s[1..], pat);
    }
  }

  /** A leading occurrence is removed and the scan resumes after it. */
  lemma RemoveAllLeading(p: string, rest: string)
    requires p != []
    ensures RemoveAll(p + rest, p) == RemoveAll(rest, p)
  {
    assert (p + rest)[..|p|] == p;
    assert (p + rest)[|p|..] == rest;
  }

  /** If `pat` is the tail of `d + pat` and no occurrence of `pat` starts
      inside `d`, removing every occurrence leaves exactly `d`. */
  lemma {:induction false} RemoveAllTail(d: string, pat: string)
    requires pat != []
    requires forall i :: 0 <= i < |d| ==> !OccursAt(d + pat, pat, i)
    ensures RemoveAll(d + pat, pat) == d
    decreases |d|
  {
    var s := d + pat;
    if d == [] {
      assert s == pat;
      assert s[..|pat|] == pat && s[|pat|..] == [];
    } else {
      assert !OccursAt(s, pat, 0);
      assert s[..|pat|] != pat;
      assert s[1..] == d[1..] + pat;
      forall i | 0 <= i < |d[1..]| ensures !OccursAt(d[1..] + pat, pat, i) {
        assert (d[1..] + pat)[i..i + |pat|] == s[i + 1..i + 1 + |pat|];
        assert !OccursAt(s, pat, i + 1);
      }
      RemoveAllTail(d[1..], pat);
      assert [s[0]] + d[1..] == d;
    }
  }

  /** A tail `pat` that contains a character `sep` which ends `d`, and that
      does not occur inside `d`, is the only occurrence in `d + pat`. */
  lemma NoStraddle(d: string, pat: string, sep: char)
    requires pat != [] && sep !in pat
    requires d == [] || d[|d| - 1] == sep
    requires !Occurs(d, pat)
    ensures forall i :: 0 <= i < |d| ==> !OccursAt(d + pat, pat, i)
  {
    forall i | 0 <= i < |d| ensures !OccursAt(d + pat, pat, i) {
      if i + |pat| <= |d| {
        assert (d + pat)[i..i + |pat|] == d[i..i + |pat|];
        assert !OccursAt(d, pat, i);
      } else {
        var k := |d| - 1 - i;
        assert pat[k] != sep;
        assert i + |pat| <= |d + pat| ==> (d + pat)[i..i + |pat|][k] == sep;
      }
    }
  }

  // ---------------------------------------------------------------------
  // str.split() with no argument
  // ---------------------------------------------------------------------

  /** `c.isspace()` for the characters Python counts as whitespace. */
  predicate IsSpace(c: char)
  {
    c == ' ' || ('\t' <= c <= '\r') || ('\U{1C}' <= c <= '\U{1F}')
    || c == '\U{85}' || c == '\U{A0}' || c == '\U{1680}'
    || ('\U{2000}' <= c <= '\U{200A}') || c == '\U{2028}' || c == '\U{2029}'
    || c == '\U{202F}' || c == '\U{205F}' || c == '\U{3000}'
  }

  predicate NoSpace(s: string)
  {
    forall i :: 0 <= i < |s| ==> !IsSpace(s[i])
  }

  /** Length of the word that starts `s`. */
  function WordLength(s: string): (n: nat)
    requires s != [] && !IsSpace(s[0])
    ensures 1 <= n <= |s|
    ensures NoSpace(s[..n])
    ensures n < |s| ==> IsSpace(s[n])
    decreases |s|
  {
    if |s| == 1 || IsSpace(s[1]) then 1 else 1 + WordLength(s[1..])
  }

  /** `s.split()`: the maximal runs of non-whitespace characters, in order. */
  function Split(s: string): (r: seq<string>)
    decreases |s|
  {
    if s == [] then []
    else if IsSpace(s[0]) then Split(s[1..])
    else var n := WordLength(s); [s[..n]] + Split(s[n..])
  }

  /** Every token is non-empty and contains no whitespace. */
  lemma {:induction false} SplitTokens(s: string)
    ensures forall k :: 0 <= k < |Split(s)| ==> Split(s)[k] != [] && NoSpace(Split(s)[k])
    decreases |s|
  {
    if s == [] {
    } else if IsSpace(s[0]) {
      SplitTokens(s[1..]);
    } else {
      SplitTokens(s[WordLength(s)..]);
    }
  }

  lemma {:induction false} WordLengthOf(a: string, rest: string)
    requires a != [] && NoSpace(a)
    requires rest == [] || IsSpace(rest[0])
    ensures WordLength(a + rest) == |a|
    decreases |a|
  {
    if |a| > 1 {
      assert (a + rest)[1..] == a[1..] + rest;
      WordLengthOf(a[1..], rest);
    }
  }

  lemma {:induction false} SplitSpaces(s: string)
    requires forall i :: 0 <= i < |s| ==> IsSpace(s[i])
    ensures Split(s) == []
    decreases |s|
  {
    if s != [] { SplitSpaces(s[1..]); }
  }

  /** A word followed by whitespace and more text splits into the word and
      the split of the rest. */
  lemma SplitWord(a: string, sp: string, rest: string)
    requires a != [] && NoSpace(a)
    requires sp != [] && forall i :: 0 <= i < |sp| ==> IsSpace(sp[i])
    ensures Split(a + sp + rest) == [a] + Split(rest)
  {
    var s := a + sp + rest;
    WordLengthOf(a, sp + rest);
    assert s == a + (sp + rest);
    assert s[..|a|] == a;
    assert s[|a|..] == sp + rest;
    SplitSkip(sp, rest);
  }

  lemma {:induction false} SplitSkip(sp: string, rest: string)
    requires forall i :: 0 <= i < |sp| ==> IsSpace(sp[i])
    ensures Split(sp + rest) == Split(rest)
    decreases |sp|
  {
    if sp != [] {
      assert (sp + rest)[1..] == sp[1..] + rest;
      SplitSkip(sp[1..], rest);
    } else {
      assert sp + rest == rest;
    }
  }

  /** `(d + " " + f).split()` is `[d, f]` for two whitespace-free words. */
  lemma SplitPair(d: string, f: string)
    requires d != [] && NoSpace(d) && f != [] && NoSpace(f)
    ensures Split(d + " " + f) == [d, f]
  {
    SplitWord(d, " ", f);
    WordLengthOf(f, []);
    assert f + [] == f;
    assert f[..|f|] == f && f[|f|..] == [];
  }

  // ---------------------------------------------------------------------
  // Iterating over the lines of a text file (universal newlines)
  // ---------------------------------------------------------------------

  predicate IsNewline(c: char)
  {
    c == '\n' || c == '\r'
  }

  /** Index of the first line break of `t`, or `|t|`. */
  function LineLength(t: string): (n: nat)
    ensures n <= |t|
    ensures forall i :: 0 <= i < n ==> !IsNewline(t[i])
    ensures n < |t| ==> IsNewline(t[n])
    decreases |t|
  {
    if t == [] || IsNewline(t[0]) then 0 else 1 + LineLength(t[1..])
  }

  /** Index just after the line break that ends the first line. */
  function NextLine(t: string): (n: nat)
    ensures LineLength(t) <= n <= |t|
    ensures t != [] ==> 0 < n
  {
    var n := LineLength(t);
    if n == |t| then n
    else if t[n] == '\r' && n + 1 < |t| && t[n + 1] == '\n' then n + 2
    else n + 1
  }

  /** `for line in f` on a file opened in text mode: lines end at "\n", "\r"
      or "\r\n"; a final line without a break is still a line; the text after
      the last break yields no extra line when it is empty. The line breaks
      themselves are dropped (the code only splits lines on whitespace). */
  function Lines(t: string): (r: seq<string>)
    decreases |t|
  {
    if t == [] then [] else [t[..LineLength(t)]] + Lines(t[NextLine(t)..])
  }

  lemma {:induction false} LineLengthOf(x: string, rest: string)
    requires forall i :: 0 <= i < |x| ==> !IsNewline(x[i])
    ensures LineLength(x + "\n" + rest) == |x|
    decreases |x|
  {
    if x != [] {
      assert (x + "\n" + rest)[1..] == x[1..] + "\n" + rest;
      LineLengthOf(x[1..], rest);
    }
  }

  /** A line terminated by "\n" is the first line, and iteration resumes after it. */
  lemma LinesCons(x: string, rest: string)
    requires forall i :: 0 <= i < |x| ==> !IsNewline(x[i])
    ensures Lines(x + "\n" + rest) == [x] + Lines(rest)
  {
    var t := x + "\n" + rest;
    LineLengthOf(x, rest);
    assert t[|x|] == '\n';
    assert NextLine(t) == |x| + 1;
    assert t[..|x|] == x;
    assert t[|x| + 1..] == rest;
  }

  // ---------------------------------------------------------------------
  // A fixed enumeration order for sets of names
  // ---------------------------------------------------------------------

  /** Lexicographic order on strings by code point. */
  predicate LexLe(a: string, b: string)
    decreases |a|
  {
    |a| == 0 || (|b| > 0 && (a[0] < b[0] || (a[0] == b[0] && LexLe(a[1..], b[1..]))))
  }

  lemma {:induction false} LexAntisymmetric(a: string, b: string)
    requires LexLe(a, b) && LexLe(b, a)
    ensures a == b
    decreases |a|
  {
    if |a| > 0 {
      LexAntisymmetric(a[1..], b[1..]);
      assert a == [a[0]] + a[1..] && b == [b[0]] + b[1..];
    }
  }

  lemma {:induction false} LexTotal(a: string, b: string)
    ensures LexLe(a, b) || LexLe(b, a)
    decreases |a|
  {
    if |a| > 0 && |b| > 0 && a[0] == b[0] { LexTotal(a[1..], b[1..]); }
  }

  lemma {:induction false} LexTransitive(a: string, b: string, c: string)
    requires LexLe(a, b) && LexLe(b, c)
    ensures LexLe(a, c)
    decreases |a|
  {
    if |a| > 0 && |b| > 0 && |c| > 0 && a[0] == b[0] && b[0] == c[0] {
      LexTransitive(a[1..], b[1..], c[1..]);
    }
  }

  predicate IsLeast(x: string, s: set<string>)
  {
    x in s && forall y :: y in s ==> LexLe(x, y)
  }

  lemma {:induction false} LeastExists(s: set<string>)
    requires s != {}
    ensures exists x :: IsLeast(x, s)
    decreases |s|
  {
    var z :| z in s;
    if s == {z} {
      LexTotal(z, z);
      assert IsLeast(z, s);
    } else {
      LeastExists(s - {z});
      var m :| IsLeast(m, s - {z});
      LexTotal(m, z);
      if LexLe(m, z) {
        assert IsLeast(m, s);
      } else {
        forall y | y in s ensures LexLe(z, y) {
          if y == z { LexTotal(z, z); } else { LexTransitive(z, m, y); }
        }
        assert IsLeast(z, s);
      }
    }
  }

  lemma LeastUnique(s: set<string>)
    ensures forall x, x' :: IsLeast(x, s) && IsLeast(x', s) ==> x == x'
  {
    forall x, x' | IsLeast(x, s) && IsLeast(x', s) ensures x == x' {
      LexAntisymmetric(x, x');
    }
  }

  /** The elements of `s` in ascending order: each exactly once. */
  function Sorted(s: set<string>): (r: seq<string>)
    ensures |r| == |s|
    ensures forall x :: x in s <==> x in r
    decreases |s|
  {
    if s == {} then []
    else
      LeastExists(s);
      LeastUnique(s);
      var x :| IsLeast(x, s);
      [x] + Sorted(s - {x})
  }

  /** `Sorted` lists no element twice. */
  lemma {:induction false} SortedDistinct(s: set<string>)
    ensures forall i, j :: 0 <= i < j < |Sorted(s)| ==> Sorted(s)[i] != Sorted(s)[j]
    decreases |s|
  {
    if s != {} {
      var r := Sorted(s);
      var x := r[0];
      assert r[1..] == Sorted(s - {x});
      SortedDistinct(s - {x});
      forall i, j | 0 <= i < j < |r| ensures r[i] != r[j] {
        if i == 0 {
          assert r[j] == r[1..][j - 1];
          assert r[j] in s - {x};
        } else {
          assert r[i] == r[1..][i - 1] && r[j] == r[1..][j - 1];
        }
      }
    }
  }
}
