/** Small shared vocabulary: optional values, list truncation and the
    abstraction of the regular-expression engine. */
module Common {

  datatype Option<+T> = None | Some(value: T)

  /** The analyser calls Python's `re` module with a pattern text and a
      subject string; the model keeps the pattern tables verbatim and leaves
      the matching itself to this parameter. */
  type Matcher = (string, string) -> bool

  function Min(a: int, b: int): int { if a <= b then a else b }

  function Max(a: int, b: int): int { if a >= b then a else b }

  /** Python's `xs[:n]`: the first n elements, or all of them when there are fewer. */
  function Take<T>(s: seq<T>, n: nat): (r: seq<T>)
    ensures |r| == Min(n, |s|)
    ensures r == s[..|r|]
  {
    if |s| <= n then s else s[..n]
  }

  /** No element occurs twice. */
  predicate Distinct<T(==)>(s: seq<T>)
  {
    forall i, j :: 0 <= i < j < |s| ==> s[i] != s[j]
  }

  /** The present values of `f` over xs, in order. */
  function FilterMap<T, U>(xs: seq<T>, f: T -> Option<U>): seq<U>
  {
    if |xs| == 0 then []
    else FilterMap(xs[..|xs| - 1], f) + (if f(xs[|xs| - 1]).Some? then [f(xs[|xs| - 1]).value] else [])
  }

  lemma {:induction false} FilterMapSpec<T, U>(xs: seq<T>, f: T -> Option<U>, y: U)
    ensures y in FilterMap(xs, f) <==> exists x :: x in xs && f(x) == Some(y)
  {
    if |xs| > 0 {
      var init := xs[..|xs| - 1];
      FilterMapSpec(init, f, y);
      assert xs == init + [xs[|xs| - 1]];
    }
  }

  lemma FilterMapSnoc<T, U>(xs: seq<T>, x: T, f: T -> Option<U>)
    ensures FilterMap(xs + [x], f) == FilterMap(xs, f) + (if f(x).Some? then [f(x).value] else [])
  {
    assert (xs + [x])[..|xs|] == xs;
  }

  /** `[x for x in xs if p(x)]` */
  function Filter<T(==,!new)>(xs: seq<T>, p: T -> bool): (r: seq<T>)
    ensures |r| <= |xs|
    ensures forall x :: x in r <==> x in xs && p(x)
  {
    if |xs| == 0 then []
    else
      var init := xs[..|xs| - 1];
      assert xs == init + [xs[|xs| - 1]];
      Filter(init, p) + (if p(xs[|xs| - 1]) then [xs[|xs| - 1]] else [])
  }

  /** Two filters with disjoint conditions pick no more than all the elements. */
  lemma {:induction false} FilterDisjointLength<T(!new)>(xs: seq<T>, p: T -> bool, q: T -> bool)
    requires forall x :: x in xs ==> !(p(x) && q(x))
    ensures |Filter(xs, p)| + |Filter(xs, q)| <= |xs|
  {
    if |xs| > 0 {
      var init := xs[..|xs| - 1];
      assert forall x :: x in init ==> x in xs;
      FilterDisjointLength(init, p, q);
    }
  }

  /** Filtering a concatenation filters each part. */
  lemma {:induction false} FilterAppend<T(!new)>(a: seq<T>, b: seq<T>, p: T -> bool)
    ensures Filter(a + b, p) == Filter(a, p) + Filter(b, p)
  {
    if |b| == 0 {
      assert a + b == a;
    } else {
      var init, last := b[..|b| - 1], b[|b| - 1];
      var tail := if p(last) then [last] else [];
      FilterAppend(a, init, p);
      assert (a + b)[..|a + b| - 1] == a + init;
      assert (a + b)[|a + b| - 1] == last;
      calc {
        Filter(a + b, p);
        Filter(a + init, p) + tail;
        Filter(a, p) + Filter(init, p) + tail;
        Filter(a, p) + (Filter(init, p) + tail);
      }
    }
  }

  /** A filter that no element passes leaves nothing. */
  lemma {:induction false} FilterNone<T(!new)>(xs: seq<T>, p: T -> bool)
    requires forall x :: x in xs ==> !p(x)
    ensures Filter(xs, p) == []
  {
    if |xs| > 0 {
      var init := xs[..|xs| - 1];
      assert forall x :: x in init ==> x in xs;
      FilterNone(init, p);
    }
  }

  /** A filter that every element passes keeps everything. */
  lemma {:induction false} FilterAll<T(!new)>(xs: seq<T>, p: T -> bool)
    requires forall x :: x in xs ==> p(x)
    ensures Filter(xs, p) == xs
  {
    if |xs| > 0 {
      var init := xs[..|xs| - 1];
      assert forall x :: x in init ==> x in xs;
      FilterAll(init, p);
      assert xs == init + [xs[|xs| - 1]];
    }
  }

  /** `[f(x) for x in xs]` */
  function MapSeq<T, U>(xs: seq<T>, f: T -> U): (r: seq<U>)
    ensures |r| == |xs|
    ensures forall k :: 0 <= k < |xs| ==> r[k] == f(xs[k])
  {
    seq(|xs|, k requires 0 <= k < |xs| => f(xs[k]))
  }
}
