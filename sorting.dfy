/** The two uses of Python's `sorted` in the analyser: by an integer key in
    reverse (`sorted(xs, key=k, reverse=True)`, stable) and plain `sorted` on
    strings. Both are insertion sorts specified by order and permutation. */
module Sorting {
  import opened Strings

  predicate NonIncreasing<T>(s: seq<T>, key: T -> int)
  {
    forall i, j :: 0 <= i < j < |s| ==> key(s[i]) >= key(s[j])
  }

  /** Places x before the first element whose key is not larger, so that an
      element keeps its place ahead of later elements with the same key. */
  function InsertDesc<T>(x: T, s: seq<T>, key: T -> int): (r: seq<T>)
    requires NonIncreasing(s, key)
    ensures multiset(r) == multiset(s) + multiset{x}
    ensures |r| == |s| + 1 && (r[0] == x || (|s| > 0 && r[0] == s[0]))
    ensures NonIncreasing(r, key)
  {
    if |s| == 0 || key(x) >= key(s[0]) then [x] + s
    else
      var rest := InsertDesc(x, s[1..], key);
      assert s == [s[0]] + s[1..];
      [s[0]] + rest
  }

  /** `sorted(s, key=key, reverse=True)` */
  function SortDesc<T>(s: seq<T>, key: T -> int): (r: seq<T>)
    ensures multiset(r) == multiset(s)
    ensures |r| == |s|
    ensures NonIncreasing(r, key)
  {
    if |s| == 0 then []
    else
      assert s == [s[0]] + s[1..];
      InsertDesc(s[0], SortDesc(s[1..], key), key)
  }

  predicate SortedStrings(s: seq<string>)
  {
    forall i, j :: 0 <= i < j < |s| ==> LexLe(s[i], s[j])
  }

  function InsertString(x: string, s: seq<string>): (r: seq<string>)
    requires SortedStrings(s)
    ensures multiset(r) == multiset(s) + multiset{x}
    ensures |r| == |s| + 1 && (r[0] == x || (|s| > 0 && r[0] == s[0]))
    ensures SortedStrings(r)
  {
    if |s| == 0 || LexLe(x, s[0]) then
      assert forall k :: 0 <= k < |s| ==> LexLe(x, s[k]) by {
        forall k | 0 <= k < |s| ensures LexLe(x, s[k]) {
          if k > 0 { LexLeTrans(x, s[0], s[k]); }
        }
      }
      [x] + s
    else
      var rest := InsertString(x, s[1..]);
      assert s == [s[0]] + s[1..];
      LexLeTotal(x, s[0]);
      assert LexLe(s[0], rest[0]);
      forall k | 0 <= k < |rest| ensures LexLe(s[0], rest[k]) {
        if k > 0 { LexLeTrans(s[0], rest[0], rest[k]); }
      }
      [s[0]] + rest
  }

  /** `sorted(s)` on a list of strings */
  function SortStrings(s: seq<string>): (r: seq<string>)
    ensures multiset(r) == multiset(s)
    ensures |r| == |s|
    ensures SortedStrings(r)
  {
    if |s| == 0 then []
    else
      assert s == [s[0]] + s[1..];
      InsertString(s[0], SortStrings(s[1..]))
  }
}
