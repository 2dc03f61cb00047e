/** Facts about sequences shared by the dataset builders and the scripts. */
module Sequences {
  import opened Wrappers

  /** No value occurs twice. */
  predicate Distinct<T(==)>(s: seq<T>) {
    forall a, b :: 0 <= a < b < |s| ==> s[a] != s[b]
  }

  /** A repeated value stays repeated when more values follow. */
  lemma RepeatExtends<T>(s: seq<T>, more: seq<T>)
    requires !Distinct(s)
    ensures !Distinct(s + more)
  {
    var a, b :| 0 <= a < b < |s| && s[a] == s[b];
    assert (s + more)[a] == (s + more)[b];
  }

  /** Appending a value not yet present keeps a sequence free of repeats. */
  lemma DistinctAppend<T>(s: seq<T>, x: T)
    requires Distinct(s) && x !in s
    ensures Distinct(s + [x])
  {
  }

  /** `xs.map(f)` where `f` may throw: all results in order, or the error of the first element
      `f` rejects (later elements are never visited). */
  function MapUntilError<T, U(==), E(==)>(xs: seq<T>, f: T -> Result<U, E>): (r: Result<seq<U>, E>)
    ensures r.Ok? <==> forall i :: 0 <= i < |xs| ==> f(xs[i]).Ok?
    ensures r.Ok? ==> |r.value| == |xs| && forall i :: 0 <= i < |xs| ==> f(xs[i]) == Ok(r.value[i])
    ensures r.Err? ==> exists i :: FirstError(xs, f, i) && r.error == f(xs[i]).error
  {
    if |xs| == 0 then Ok([])
    else
      var head := f(xs[0]);
      if head.Err? then
        assert FirstError(xs, f, 0);
        Err(head.error)
      else
        var tail := MapUntilError(xs[1..], f);
        if tail.Err? then
          var j :| FirstError(xs[1..], f, j) && tail.error == f(xs[1..][j]).error;
          assert FirstError(xs, f, j + 1);
          Err(tail.error)
        else
          assert forall i :: 0 < i < |xs| ==> xs[i] == xs[1..][i - 1];
          Ok([head.value] + tail.value)
  }

  /** Element `i` is the first one `f` rejects. */
  predicate FirstError<T, U, E>(xs: seq<T>, f: T -> Result<U, E>, i: int) {
    && 0 <= i < |xs| && f(xs[i]).Err?
    && forall j :: 0 <= j < i ==> f(xs[j]).Ok?
  }

  /** How many elements of `xs` satisfy `p`, counting repeats. */
  function CountWhere<T>(xs: seq<T>, p: T -> bool): (n: nat)
    ensures n <= |xs|
  {
    if |xs| == 0 then 0 else (if p(xs[0]) then 1 else 0) + CountWhere(xs[1..], p)
  }

  /** No element counts exactly when none satisfies `p`; all count exactly when all do. */
  lemma {:induction false} CountWhereExtremes<T>(xs: seq<T>, p: T -> bool)
    ensures CountWhere(xs, p) == 0 <==> forall i :: 0 <= i < |xs| ==> !p(xs[i])
    ensures CountWhere(xs, p) == |xs| <==> forall i :: 0 <= i < |xs| ==> p(xs[i])
  {
    if |xs| > 0 {
      CountWhereExtremes(xs[1..], p);
      assert forall i :: 1 <= i < |xs| ==> xs[i] == xs[1..][i - 1];
    }
  }

  /** `xs.filter(p)`: the elements satisfying `p`, in their order, as many as `xs` has. A
      subsequence of `xs` made of such elements and that long is unique (`FilterDetermined`). */
  function Filter<T(==)>(xs: seq<T>, p: T -> bool): (r: seq<T>)
    ensures forall i :: 0 <= i < |r| ==> r[i] in xs && p(r[i])
    ensures forall i :: 0 <= i < |xs| && p(xs[i]) ==> xs[i] in r
    ensures IsSubsequence(r, xs)
    ensures |r| == CountWhere(xs, p)
  {
    if |xs| == 0 then []
    else
      var rest := Filter(xs[1..], p);
      FilterStep(xs[0], p(xs[0]), rest, xs[1..]);
      assert forall i :: 1 <= i < |xs| ==> xs[i] == xs[1..][i - 1];
      assert forall x :: x in xs[1..] ==> x in xs;
      if p(xs[0]) then [xs[0]] + rest else rest
  }

  /** Each element occurs in the filter as often as in `xs` when it satisfies `p`, else never. */
  lemma {:induction false} FilterMultiset<T>(xs: seq<T>, p: T -> bool)
    ensures forall x :: multiset(Filter(xs, p))[x] == if p(x) then multiset(xs)[x] else 0
  {
    if |xs| > 0 {
      FilterMultiset(xs[1..], p);
      assert xs == [xs[0]] + xs[1..];
    }
  }

  /** A subsequence of `xs` whose elements all satisfy `p` has at most as many elements as
      `xs` has satisfying ones. */
  lemma {:induction false} SubsequenceCountBound<T>(r: seq<T>, xs: seq<T>, p: T -> bool)
    requires IsSubsequence(r, xs)
    requires forall i :: 0 <= i < |r| ==> p(r[i])
    ensures |r| <= CountWhere(xs, p)
    decreases |xs|
  {
    if |r| > 0 {
      if r[0] == xs[0] {
        SubsequenceCountBound(r[1..], xs[1..], p);
      } else {
        SubsequenceCountBound(r, xs[1..], p);
      }
    }
  }

  /** The contract of `Filter` has exactly one solution: any subsequence of `xs` made of
      elements satisfying `p`, as long as the count of them, is the filter. */
  lemma {:induction false} FilterDetermined<T>(r: seq<T>, xs: seq<T>, p: T -> bool)
    requires IsSubsequence(r, xs)
    requires forall i :: 0 <= i < |r| ==> p(r[i])
    requires |r| == CountWhere(xs, p)
    ensures r == Filter(xs, p)
    decreases |xs|
  {
    if |r| == 0 {
    } else if r[0] == xs[0] {
      FilterDetermined(r[1..], xs[1..], p);
      assert r == [r[0]] + r[1..];
    } else {
      if p(xs[0]) {
        SubsequenceCountBound(r, xs[1..], p);
        assert false;
      }
      FilterDetermined(r, xs[1..], p);
    }
  }

  /** `a` is `b` with some elements left out, the rest in their order. */
  predicate IsSubsequence<T(==)>(a: seq<T>, b: seq<T>)
    decreases |b|
  {
    if |a| == 0 then true
    else if |b| == 0 then false
    else if a[0] == b[0] then IsSubsequence(a[1..], b[1..])
    else IsSubsequence(a, b[1..])
  }

  /** One step of a filter: the head is kept or skipped, and the rest is a subsequence of the
      tail. */
  lemma FilterStep<T>(x: T, keep: bool, rest: seq<T>, tail: seq<T>)
    requires IsSubsequence(rest, tail)
    ensures IsSubsequence(if keep then [x] + rest else rest, [x] + tail)
  {
    assert ([x] + tail)[1..] == tail;
    if keep {
      assert ([x] + rest)[1..] == rest;
    } else {
      SubsequenceSkip(rest, x, tail);
    }
  }

  lemma {:induction false} SubsequenceSkip<T>(a: seq<T>, x: T, b: seq<T>)
    requires IsSubsequence(a, b)
    ensures IsSubsequence(a, [x] + b)
    decreases |b|, 1
  {
    if |a| > 0 && a[0] == x {
      assert ([x] + b)[1..] == b;
      SubsequenceDrop(a, b);
    } else {
      assert ([x] + b)[1..] == b;
    }
  }

  /** Dropping the head of a subsequence keeps it a subsequence. */
  lemma {:induction false} SubsequenceDrop<T>(a: seq<T>, b: seq<T>)
    requires |a| > 0 && IsSubsequence(a, b)
    ensures IsSubsequence(a[1..], b)
    decreases |b|, 0
  {
    assert |b| > 0;
    if a[0] == b[0] {
      SubsequenceSkip(a[1..], b[0], b[1..]);
      assert [b[0]] + b[1..] == b;
    } else {
      SubsequenceDrop(a, b[1..]);
      SubsequenceSkip(a[1..], b[0], b[1..]);
      assert [b[0]] + b[1..] == b;
    }
  }

  lemma {:induction false} SubsequenceRefl<T>(s: seq<T>)
    ensures IsSubsequence(s, s)
  {
    if |s| > 0 {
      SubsequenceRefl(s[1..]);
    }
  }
}
