/** The pieces of Python's `str` API that the analyser's decision rules use,
    written out over `seq<char>` (code points; case mapping is ASCII only). */
module Strings {

  // ---------------------------------------------------------------------------
  // Prefixes, suffixes, containment
  // ---------------------------------------------------------------------------

  /** `s.startswith(p)` */
  predicate StartsWith(s: string, p: string)
  {
    |p| == 0 || (|s| > 0 && p[0] == s[0] && StartsWith(s[1..], p[1..]))
  }

  lemma {:induction false} StartsWithSlice(s: string, p: string)
    ensures StartsWith(s, p) <==> |p| <= |s| && s[..|p|] == p
  {
    if |p| > 0 && |s| > 0 {
      StartsWithSlice(s[1..], p[1..]);
      if |p| <= |s| && s[..|p|] == p {
        assert s[1..][..|p| - 1] == s[..|p|][1..];
      }
    }
  }

  lemma StartsWithConcat(a: string, b: string)
    ensures StartsWith(a + b, a)
  {
    StartsWithSlice(a + b, a);
    assert (a + b)[..|a|] == a;
  }

  /** `s.endswith(p)` */
  predicate EndsWith(s: string, p: string)
  {
    |p| <= |s| && s[|s| - |p|..] == p
  }

  /** `p in s`: p occurs somewhere in s. */
  predicate Contains(s: string, p: string)
  {
    StartsWith(s, p) || (|s| > 0 && Contains(s[1..], p))
  }

  /** A prefix of s is also contained in s; this is why the analyser's
      `imp.startswith(mod) or mod in imp` is the containment test alone. */
  lemma StartsWithContains(s: string, p: string)
    ensures StartsWith(s, p) ==> Contains(s, p)
  {
  }

  // ---------------------------------------------------------------------------
  // Case mapping and character replacement
  // ---------------------------------------------------------------------------

  /** `c.lower()` restricted to ASCII letters. */
  function LowerChar(c: char): char
  {
    if 'A' <= c <= 'Z' then (c as int + 32) as char else c
  }

  /** `s.lower()` (ASCII letters only). */
  function Lower(s: string): (r: string)
    ensures |r| == |s|
    ensures forall i :: 0 <= i < |s| ==> r[i] == LowerChar(s[i])
  {
    if |s| == 0 then [] else [LowerChar(s[0])] + Lower(s[1..])
  }

  /** No ASCII upper-case letter. */
  predicate NoUpper(s: string)
  {
    |s| == 0 || (!('A' <= s[0] <= 'Z') && NoUpper(s[1..]))
  }

  lemma {:induction false} LowerOfNoUpper(s: string)
    requires NoUpper(s)
    ensures Lower(s) == s
  {
    if |s| > 0 {
      LowerOfNoUpper(s[1..]);
      assert s == [s[0]] + s[1..];
    }
  }

  lemma LowerConcat(a: string, b: string)
    ensures Lower(a + b) == Lower(a) + Lower(b)
  {
    assert forall i :: 0 <= i < |a + b| ==> Lower(a + b)[i] == (Lower(a) + Lower(b))[i];
  }

  /** `s.replace(a, b)` for single characters a and b. */
  function ReplaceChar(s: string, a: char, b: char): (r: string)
    ensures |r| == |s|
    ensures forall i :: 0 <= i < |s| ==> r[i] == (if s[i] == a then b else s[i])
  {
    if |s| == 0 then [] else [if s[0] == a then b else s[0]] + ReplaceChar(s[1..], a, b)
  }

  // ---------------------------------------------------------------------------
  // Removing every occurrence of a substring: `s.replace(p, "")`
  // ---------------------------------------------------------------------------

  /** Python scans left to right and deletes non-overlapping occurrences;
      an occurrence that only appears once another one is deleted stays. */
  function Remove(s: string, p: string): (r: string)
    ensures |r| <= |s|
    decreases |s|
  {
    if |p| == 0 || |s| < |p| then s
    else if StartsWith(s, p) then (StartsWithSlice(s, p); Remove(s[|p|..], p))
    else [s[0]] + Remove(s[1..], p)
  }

  /** Deleting p from s changes nothing when p does not occur in s. */
  lemma {:induction false} RemoveAbsent(s: string, p: string)
    requires |p| > 0 && !Contains(s, p)
    ensures Remove(s, p) == s
  {
    if |s| >= |p| {
      RemoveAbsent(s[1..], p);
      assert [s[0]] + s[1..] == s;
    }
  }

  lemma {:induction false} RemoveSelf(p: string)
    requires |p| > 0
    ensures Remove(p, p) == []
  {
    StartsWithSlice(p, p);
    assert p[|p|..] == [];
  }

  /** Deleting distributes over concatenation when no occurrence of p can
      straddle the seam: the first character of t is none of p's characters
      after its first. */
  lemma {:induction false} RemoveConcat(s: string, t: string, p: string)
    requires |p| > 0
    requires |t| == 0 || forall k :: 1 <= k < |p| ==> p[k] != t[0]
    ensures Remove(s + t, p) == Remove(s, p) + Remove(t, p)
    decreases |s|
  {
    var u := s + t;
    if |s| == 0 {
      assert u == t;
    } else if |s| >= |p| {
      StartsWithSlice(u, p);
      StartsWithSlice(s, p);
      assert u[..|p|] == s[..|p|];
      if StartsWith(s, p) {
        assert Remove(u, p) == Remove(u[|p|..], p);
        assert u[|p|..] == s[|p|..] + t;
        RemoveConcat(s[|p|..], t, p);
      } else {
        assert Remove(u, p) == [u[0]] + Remove(u[1..], p);
        assert u[1..] == s[1..] + t;
        RemoveConcat(s[1..], t, p);
      }
    } else {
      // 0 < |s| < |p|: Remove(s, p) == s
      if |u| >= |p| {
        assert !StartsWith(u, p) by {
          StartsWithSlice(u, p);
          assert u[|s|] == t[0];
          assert u[..|p|][|s|] != p[|s|];
        }
        assert Remove(u, p) == [u[0]] + Remove(u[1..], p);
        assert u[1..] == s[1..] + t;
        RemoveConcat(s[1..], t, p);
        assert Remove(s[1..], p) == s[1..];
        assert [s[0]] + s[1..] == s;
      } else {
        assert Remove(t, p) == t;
      }
    }
  }

  // ---------------------------------------------------------------------------
  // Stripping: `s.strip()`, `s.lstrip(chars)`
  // ---------------------------------------------------------------------------

  /** Python's `str.isspace()` characters (bidirectional classes WS, B, S and
      category Zs). */
  predicate IsSpace(c: char)
  {
    ('\U{0009}' <= c <= '\U{000D}') || ('\U{001C}' <= c <= ' ') || c == '\U{0085}' ||
    c == '\U{00A0}' || c == '\U{1680}' || ('\U{2000}' <= c <= '\U{200A}') ||
    c == '\U{2028}' || c == '\U{2029}' || c == '\U{202F}' || c == '\U{205F}' || c == '\U{3000}'
  }

  /** Drops the leading characters for which `drop` holds. */
  function LStrip(s: string, drop: char -> bool): (r: string)
    ensures |r| <= |s|
    ensures |r| > 0 ==> !drop(r[0])
  {
    if |s| > 0 && drop(s[0]) then LStrip(s[1..], drop) else s
  }

  /** What is left after stripping on the left is a suffix of the original. */
  lemma {:induction false} LStripSuffix(s: string, drop: char -> bool)
    ensures LStrip(s, drop) == s[|s| - |LStrip(s, drop)|..]
  {
    if |s| > 0 && drop(s[0]) {
      LStripSuffix(s[1..], drop);
    }
  }

  /** Drops the trailing characters for which `drop` holds. */
  function RStrip(s: string, drop: char -> bool): (r: string)
    ensures |r| <= |s|
    ensures |r| > 0 ==> !drop(r[|r| - 1])
  {
    if |s| > 0 && drop(s[|s| - 1]) then RStrip(s[..|s| - 1], drop) else s
  }

  /** What is left after stripping on the right is a prefix of the original. */
  lemma {:induction false} RStripPrefix(s: string, drop: char -> bool)
    ensures RStrip(s, drop) == s[..|RStrip(s, drop)|]
  {
    if |s| > 0 && drop(s[|s| - 1]) {
      RStripPrefix(s[..|s| - 1], drop);
    }
  }

  /** `s.strip()` */
  function Strip(s: string): (r: string)
    ensures |r| <= |s|
    ensures |r| > 0 ==> !IsSpace(r[0]) && !IsSpace(r[|r| - 1])
  {
    var l := LStrip(s, IsSpace);
    RStripPrefix(l, IsSpace);
    RStrip(l, IsSpace)
  }

  /** Stripping only removes characters. */
  lemma StripChars(s: string)
    ensures forall c :: c in Strip(s) ==> c in s
  {
    var l := LStrip(s, IsSpace);
    var r := RStrip(l, IsSpace);
    LStripSuffix(s, IsSpace);
    RStripPrefix(l, IsSpace);
    assert r == Strip(s);
    assert l == s[|s| - |l|..];
    assert r == l[..|r|];
    forall c | c in r ensures c in s {
      var i :| 0 <= i < |r| && r[i] == c;
      assert l[i] == c;
      assert s[|s| - |l| + i] == c;
    }
  }

  // ---------------------------------------------------------------------------
  // Splitting and joining
  // ---------------------------------------------------------------------------

  function NextBudget(n: int): int { if n > 0 then n - 1 else n }

  /** `s.split(sep, n)`: at most n splits, unlimited when n is negative,
      taking the occurrences of sep from left to right. */
  function SplitN(s: string, sep: string, n: int): (parts: seq<string>)
    requires |sep| > 0
    ensures |parts| >= 1
    ensures n >= 0 ==> |parts| <= n + 1
    decreases |s|
  {
    if n == 0 || |s| == 0 then [s]
    else if StartsWith(s, sep) then
      (StartsWithSlice(s, sep); [""] + SplitN(s[|sep|..], sep, NextBudget(n)))
    else
      var rest := SplitN(s[1..], sep, n);
      [[s[0]] + rest[0]] + rest[1..]
  }

  /** `s.split(sep)` */
  function Split(s: string, sep: string): seq<string>
    requires |sep| > 0
  {
    SplitN(s, sep, -1)
  }

  /** `sep.join(parts)` */
  function Join(parts: seq<string>, sep: string): string
  {
    if |parts| == 0 then ""
    else if |parts| == 1 then parts[0]
    else parts[0] + sep + Join(parts[1..], sep)
  }

  lemma JoinEmptyHead(parts: seq<string>, sep: string)
    requires |parts| >= 1
    ensures Join([""] + parts, sep) == sep + Join(parts, sep)
  {
    assert ([""] + parts)[1..] == parts;
  }

  lemma JoinPrepend(c: char, parts: seq<string>, sep: string)
    requires |parts| >= 1
    ensures Join([[c] + parts[0]] + parts[1..], sep) == [c] + Join(parts, sep)
  {
    var q := [[c] + parts[0]] + parts[1..];
    assert q[1..] == parts[1..];
  }

  /** Splitting loses nothing: joining the parts with the separator gives the
      original string back. */
  lemma {:induction false} SplitJoin(s: string, sep: string, n: int)
    requires |sep| > 0
    ensures Join(SplitN(s, sep, n), sep) == s
    decreases |s|
  {
    if n == 0 || |s| == 0 {
    } else if StartsWith(s, sep) {
      StartsWithSlice(s, sep);
      var rest := SplitN(s[|sep|..], sep, NextBudget(n));
      SplitJoin(s[|sep|..], sep, NextBudget(n));
      JoinEmptyHead(rest, sep);
      assert s == sep + s[|sep|..];
    } else {
      var rest := SplitN(s[1..], sep, n);
      SplitJoin(s[1..], sep, n);
      JoinPrepend(s[0], rest, sep);
      assert s == [s[0]] + s[1..];
    }
  }

  /** `s.count(c)` for a single character. */
  function CountChar(s: string, c: char): (n: nat)
    ensures n <= |s|
    ensures n == 0 <==> c !in s
  {
    if |s| == 0 then 0
    else
      assert c in s <==> s[0] == c || c in s[1..];
      CountChar(s[1..], c) + (if s[0] == c then 1 else 0)
  }

  /** `s.split(c, n)` makes one part more than the splits it performs: one
      per occurrence of c, but at most n when n is not negative. */
  lemma {:induction false} SplitNCount(s: string, c: char, n: int)
    ensures |SplitN(s, [c], n)| == (if n < 0 || CountChar(s, c) <= n then CountChar(s, c) else n) + 1
    decreases |s|
  {
    if n == 0 || |s| == 0 {
    } else {
      assert StartsWith(s, [c]) <==> s[0] == c;
      SplitNCount(s[1..], c, if s[0] == c then NextBudget(n) else n);
    }
  }

  /** Splitting `a + c + b` on the one-character separator c, where c does not
      occur in a, gives a first and then the parts of b. */
  lemma {:induction false} SplitAtFirst(a: string, c: char, b: string)
    requires c !in a
    ensures Split(a + [c] + b, [c]) == [a] + Split(b, [c])
    decreases |a|
  {
    var s := a + [c] + b;
    if |a| == 0 {
      assert s == [c] + b;
      assert StartsWith(s, [c]);
      assert s[1..] == b;
    } else {
      assert !StartsWith(s, [c]);
      assert s[1..] == a[1..] + [c] + b;
      SplitAtFirst(a[1..], c, b);
      assert [a[0]] + a[1..] == a;
    }
  }

  /** Splitting a string free of the one-character separator c gives it back whole. */
  lemma {:induction false} SplitNone(a: string, c: char)
    requires c !in a
    ensures Split(a, [c]) == [a]
    decreases |a|
  {
    if |a| > 0 {
      assert !StartsWith(a, [c]);
      SplitNone(a[1..], c);
      assert [a[0]] + a[1..] == a;
    }
  }

  /** The text before the first character satisfying `stop` (all of s when
      there is none); Python's `re.split("[...]", s)[0]`. */
  function TakeUntil(s: string, stop: char -> bool): (r: string)
    ensures |r| <= |s| && r == s[..|r|]
    ensures forall i :: 0 <= i < |r| ==> !stop(r[i])
    ensures |r| < |s| ==> stop(s[|r|])
  {
    if |s| == 0 || stop(s[0]) then [] else [s[0]] + TakeUntil(s[1..], stop)
  }

  /** The index of the last c in s, or -1: Python's `s.rfind(c)`. */
  function RFind(s: string, c: char): (i: int)
    ensures -1 <= i < |s|
    ensures i >= 0 ==> s[i] == c
    ensures forall k :: i < k < |s| ==> s[k] != c
  {
    if |s| == 0 then -1 else if s[|s| - 1] == c then |s| - 1 else RFind(s[..|s| - 1], c)
  }

  /** Code-point lexicographic order, the order of Python's `sorted` on str. */
  predicate LexLe(a: string, b: string)
  {
    |a| == 0 || (|b| > 0 && (a[0] < b[0] || (a[0] == b[0] && LexLe(a[1..], b[1..]))))
  }

  lemma {:induction false} LexLeTotal(a: string, b: string)
    ensures LexLe(a, b) || LexLe(b, a)
  {
    if |a| > 0 && |b| > 0 && a[0] == b[0] {
      LexLeTotal(a[1..], b[1..]);
    }
  }

  lemma {:induction false} LexLeTrans(a: string, b: string, c: string)
    requires LexLe(a, b) && LexLe(b, c)
    ensures LexLe(a, c)
  {
    if |a| > 0 && |b| > 0 && |c| > 0 && a[0] == b[0] && b[0] == c[0] {
      LexLeTrans(a[1..], b[1..], c[1..]);
    }
  }
}
