/** Text operations the planning board relies on: prefix and substring tests,
    Python's `strip`/`lower`, `join`/`split` on a separator, and the
    code-unit-wise string order JavaScript uses for `<` on strings. */
module Strings {

  /** `s.startswith(p)` / `s.startsWith(p)`. */
  predicate StartsWith(s: string, p: string) {
    |p| <= |s| && s[..|p|] == p
  }

  /** Python's `s.replace(pat, rep, 1)`: the first occurrence of `pat`, if
      any, becomes `rep` (an empty `pat` occurs at the start). */
  function ReplaceFirst(s: string, pat: string, rep: string): string
    decreases |s|
  {
    if StartsWith(s, pat) then rep + s[|pat|..]
    else if s == [] then s
    else [s[0]] + ReplaceFirst(s[1..], pat, rep)
  }

  /** When `pat` first occurs at position `k`, exactly that occurrence is
      replaced and the text around it is kept. */
  lemma ReplaceFirstAt(s: string, pat: string, rep: string, k: nat)
    requires k + |pat| <= |s| && s[k..k + |pat|] == pat
    requires forall j :: 0 <= j < k ==> !StartsWith(s[j..], pat)
    ensures ReplaceFirst(s, pat, rep) == s[..k] + rep + s[k + |pat|..]
  {
    NoMatchBeforeOf(s, pat, k);
    ReplaceFirstFrom(s, pat, rep, k);
  }

  /** `pat` does not start at any of the first `k` positions of `s`. */
  predicate NoMatchBefore(s: string, pat: string, k: nat)
    decreases k
  {
    k == 0 || (s != [] && !StartsWith(s, pat) && NoMatchBefore(s[1..], pat, k - 1))
  }

  lemma {:induction false} NoMatchBeforeOf(s: string, pat: string, k: nat)
    requires k <= |s| && forall j :: 0 <= j < k ==> !StartsWith(s[j..], pat)
    ensures NoMatchBefore(s, pat, k)
    decreases k
  {
    if k > 0 {
      assert s[0..] == s;
      ShiftNoMatch(s, pat, k);
      NoMatchBeforeOf(s[1..], pat, k - 1);
    }
  }

  lemma {:induction false} ReplaceFirstFrom(s: string, pat: string, rep: string, k: nat)
    requires k + |pat| <= |s| && s[k..k + |pat|] == pat && NoMatchBefore(s, pat, k)
    ensures ReplaceFirst(s, pat, rep) == s[..k] + rep + s[k + |pat|..]
    decreases k
  {
    if k == 0 {
      assert s[..|pat|] == pat;
    } else {
      SliceShift(s, k, k + |pat|);
      ReplaceFirstFrom(s[1..], pat, rep, k - 1);
      ReplaceFirstLift(s, pat, rep, k);
    }
  }

  /** The inductive step of `ReplaceFirstAt`: an occurrence at `k - 1` in the
      tail is one at `k` in `s`. */
  lemma ReplaceFirstLift(s: string, pat: string, rep: string, k: nat)
    requires 0 < k && k + |pat| <= |s| && !StartsWith(s, pat)
    requires ReplaceFirst(s[1..], pat, rep) == s[1..][..k - 1] + rep + s[1..][k - 1 + |pat|..]
    ensures ReplaceFirst(s, pat, rep) == s[..k] + rep + s[k + |pat|..]
  {
    ReplaceFirstStep(s, pat, rep);
    ConsSplice(s, rep, k, k + |pat|, ReplaceFirst(s[1..], pat, rep));
  }

  /** Splicing `rep` into the tail at `k - 1 .. m - 1` and putting the first
      character back is splicing it into `s` at `k .. m`. */
  lemma ConsSplice(s: string, rep: string, k: int, m: int, tail: string)
    requires 0 < k <= m <= |s|
    requires tail == s[1..][..k - 1] + rep + s[1..][m - 1..]
    ensures [s[0]] + tail == s[..k] + rep + s[m..]
  {
    SliceShift(s, k, m);
    assert [s[0]] + tail == ([s[0]] + s[1..][..k - 1]) + rep + s[1..][m - 1..];
  }

  /** Away from an occurrence, `replace` keeps the first character. */
  lemma ReplaceFirstStep(s: string, pat: string, rep: string)
    requires s != [] && !StartsWith(s, pat)
    ensures ReplaceFirst(s, pat, rep) == [s[0]] + ReplaceFirst(s[1..], pat, rep)
  {
  }

  /** How the slices of `s` and of its tail line up. */
  lemma SliceShift(s: string, k: int, m: int)
    requires 0 < k <= m <= |s|
    ensures s[..k] == [s[0]] + s[1..][..k - 1]
    ensures s[1..][k - 1..m - 1] == s[k..m]
    ensures s[1..][m - 1..] == s[m..]
  {
  }

  /** No occurrence before `k` in `s` means none before `k - 1` in its tail. */
  lemma ShiftNoMatch(s: string, pat: string, k: nat)
    requires 0 < k <= |s| && forall j :: 0 <= j < k ==> !StartsWith(s[j..], pat)
    ensures forall j :: 0 <= j < k - 1 ==> !StartsWith(s[1..][j..], pat)
  {
    forall j | 0 <= j < k - 1
      ensures !StartsWith(s[1..][j..], pat)
    {
      assert s[1..][j..] == s[j + 1..];
    }
  }

  /** Without any occurrence of `pat` the text is kept. */
  lemma {:induction false} ReplaceFirstNone(s: string, pat: string, rep: string)
    requires forall j :: 0 <= j <= |s| ==> !StartsWith(s[j..], pat)
    ensures ReplaceFirst(s, pat, rep) == s
    decreases |s|
  {
    assert s[0..] == s;
    if s != [] {
      forall j | 0 <= j <= |s[1..]|
        ensures !StartsWith(s[1..][j..], pat)
      {
        assert s[1..][j..] == s[j + 1..];
      }
      ReplaceFirstNone(s[1..], pat, rep);
    }
  }

  /** `p in s` (Python) / `s.includes(p)` (JavaScript). */
  predicate Contains(s: string, p: string)
    decreases |s|
  {
    StartsWith(s, p) || (|s| > 0 && Contains(s[1..], p))
  }

  /** A text that contains `p` still contains it once more text is appended. */
  lemma {:induction false} ContainsExtend(a: string, b: string, p: string)
    requires Contains(a, p)
    ensures Contains(a + b, p)
    decreases |a|
  {
    if StartsWith(a, p) {
      assert (a + b)[..|p|] == a[..|p|];
    } else {
      assert (a + b)[1..] == a[1..] + b;
      ContainsExtend(a[1..], b, p);
    }
  }

  /** Python's `str.isspace` on the ASCII whitespace characters. */
  predicate IsPySpace(c: char) {
    c == ' ' || c == '\t' || c == '\n' || c == '\r' || c as int == 11 || c as int == 12
  }

  /** `s.lstrip()`: drops leading whitespace. */
  function TrimStart(s: string): (r: string)
    ensures |r| <= |s| && r == s[|s| - |r|..]
    ensures forall i :: 0 <= i < |s| - |r| ==> IsPySpace(s[i])
    ensures |r| > 0 ==> !IsPySpace(r[0])
  {
    if |s| > 0 && IsPySpace(s[0]) then TrimStart(s[1..]) else s
  }

  /** `s.rstrip()`: drops trailing whitespace. */
  function TrimEnd(s: string): (r: string)
    ensures |r| <= |s| && r == s[..|r|]
    ensures forall i :: |r| <= i < |s| ==> IsPySpace(s[i])
    ensures |r| > 0 ==> !IsPySpace(r[|r| - 1])
  {
    if |s| > 0 && IsPySpace(s[|s| - 1]) then TrimEnd(s[..|s| - 1]) else s
  }

  lemma TrimStartSpace(c: char, s: string)
    requires IsPySpace(c)
    ensures TrimStart([c] + s) == TrimStart(s)
  {
    assert ([c] + s)[1..] == s;
  }

  lemma TrimEndSpace(s: string, c: char)
    requires IsPySpace(c)
    ensures TrimEnd(s + [c]) == TrimEnd(s)
  {
    assert (s + [c])[..|s|] == s;
  }

  /** `s.strip()`. */
  function Strip(s: string): string {
    TrimEnd(TrimStart(s))
  }

  /** `s.strip()` is empty exactly when every character of `s` is whitespace;
      that is, Python's truth test on the stripped text asks whether `s` has
      non-whitespace content. */
  lemma StripEmptyIff(s: string)
    ensures Strip(s) == "" <==> forall i :: 0 <= i < |s| ==> IsPySpace(s[i])
  {
    var a := TrimStart(s);
    if |a| > 0 {
      assert !IsPySpace(a[0]);
      assert Strip(s) != "";
      assert a[0] == s[|s| - |a|];
    }
  }

  /** Python's `str.lower` on ASCII letters and the upper-case Latin-1 letters
      (`'Í'` becomes `'í'`). */
  function LowerChar(c: char): char {
    if 'A' <= c <= 'Z' || ('À' <= c <= 'Þ' && c != '×') then
      (c as int + 32) as char
    else
      c
  }

  function Lower(s: string): (r: string)
    ensures |r| == |s|
    ensures forall i :: 0 <= i < |s| ==> r[i] == LowerChar(s[i])
  {
    if s == [] then [] else [LowerChar(s[0])] + Lower(s[1..])
  }

  /** `b` is `a` lower-cased, checked character by character. */
  predicate LowersTo(a: string, b: string) {
    |a| == |b| && forall i :: 0 <= i < |a| ==> LowerChar(a[i]) == b[i]
  }

  lemma LowersToLower(a: string, b: string)
    requires LowersTo(a, b)
    ensures Lower(a) == b
  {
    assert forall i :: 0 <= i < |a| ==> Lower(a)[i] == b[i];
  }

  /** Lower-casing a fixed prefix followed by any text. */
  lemma LowerAfter(prefix: string, lowered: string, v: string)
    requires LowersTo(prefix, lowered)
    ensures Lower(prefix + v) == lowered + Lower(v)
  {
    LowersToLower(prefix, lowered);
    LowerConcat(prefix, v);
  }

  lemma LowerConcat(a: string, b: string)
    ensures Lower(a + b) == Lower(a) + Lower(b)
  {
    var l, r := Lower(a + b), Lower(a) + Lower(b);
    assert forall i :: 0 <= i < |l| ==> l[i] == r[i] by {
      forall i | 0 <= i < |l|
        ensures l[i] == r[i]
      {
        if i < |a| {
          assert (a + b)[i] == a[i];
        } else {
          assert (a + b)[i] == b[i - |a|];
        }
      }
    }
  }

  /** `sep.join(parts)` / `parts.join(sep)`. */
  function Join(parts: seq<string>, sep: string): string
    decreases |parts|
  {
    if |parts| == 0 then ""
    else if |parts| == 1 then parts[0]
    else parts[0] + sep + Join(parts[1..], sep)
  }

  /** `s.split(c)` for a one-character separator: the maximal pieces of `s`
      between occurrences of `c`; always at least one piece. */
  function Split(s: string, c: char): (r: seq<string>)
    ensures |r| >= 1
    decreases |s|
  {
    if |s| == 0 then [""]
    else if s[0] == c then [""] + Split(s[1..], c)
    else
      var rest := Split(s[1..], c);
      [[s[0]] + rest[0]] + rest[1..]
  }

  lemma {:induction false} SplitNoSeparator(s: string, c: char)
    requires c !in s
    ensures Split(s, c) == [s]
    decreases |s|
  {
    if |s| > 0 {
      SplitNoSeparator(s[1..], c);
      assert [s[0]] + s[1..] == s;
    }
  }

  lemma {:induction false} SplitAfterPiece(a: string, c: char, b: string)
    requires c !in a
    ensures Split(a + [c] + b, c) == [a] + Split(b, c)
    decreases |a|
  {
    if |a| == 0 {
      assert a + [c] + b == [c] + b;
      assert ([c] + b)[1..] == b;
    } else {
      assert (a + [c] + b)[1..] == a[1..] + [c] + b;
      SplitAfterPiece(a[1..], c, b);
      assert [a[0]] + a[1..] == a;
    }
  }

  /** Splitting a joined list gives the list back, provided no piece holds the
      separator: the round trip of a comma-separated column. */
  lemma {:induction false} SplitJoin(parts: seq<string>, c: char)
    requires |parts| >= 1
    requires forall i :: 0 <= i < |parts| ==> c !in parts[i]
    ensures Split(Join(parts, [c]), c) == parts
    decreases |parts|
  {
    if |parts| == 1 {
      SplitNoSeparator(parts[0], c);
    } else {
      SplitJoin(parts[1..], c);
      SplitAfterPiece(parts[0], c, Join(parts[1..], [c]));
      assert [parts[0]] + parts[1..] == parts;
    }
  }

  /** JavaScript's `a < b` on two strings: lexicographic on code units. */
  predicate LexLess(a: string, b: string)
    decreases |a|
  {
    if |a| == 0 then |b| > 0
    else if |b| == 0 then false
    else if a[0] == b[0] then LexLess(a[1..], b[1..])
    else a[0] < b[0]
  }

  /** Comparing two strings that start with equal-length heads: decided by the
      heads unless they agree. */
  lemma {:induction false} LexLessConcat(a: string, x: string, b: string, y: string)
    requires |a| == |b|
    ensures LexLess(a + x, b + y) <==> LexLess(a, b) || (a == b && LexLess(x, y))
    decreases |a|
  {
    if |a| > 0 {
      assert (a + x)[1..] == a[1..] + x;
      assert (b + y)[1..] == b[1..] + y;
      LexLessConcat(a[1..], x, b[1..], y);
      if a[0] == b[0] && a[1..] == b[1..] {
        assert a == [a[0]] + a[1..];
        assert b == [b[0]] + b[1..];
      }
    } else {
      assert a + x == x;
      assert b + y == y;
    }
  }

  lemma {:induction false} LexLessIrreflexive(a: string)
    ensures !LexLess(a, a)
    decreases |a|
  {
    if |a| > 0 {
      LexLessIrreflexive(a[1..]);
    }
  }
}
