/** `Array.prototype.sort` with a numeric comparator `(a, b) => key(a) - key(b)`. The engine's
    sort is stable, so its result is the one sorted permutation that keeps elements with equal
    keys in their input order; `SortBy` is that permutation, built by insertion. */
module StableSort {

  predicate SortedBy<T>(s: seq<T>, key: T -> real) {
    forall i, j :: 0 <= i < j < |s| ==> key(s[i]) <= key(s[j])
  }

  /** The elements of `s` whose key is `c`, in order. */
  function WithKey<T>(s: seq<T>, key: T -> real, c: real): (r: seq<T>)
    ensures |r| <= |s|
  {
    if |s| == 0 then []
    else if key(s[|s| - 1]) == c then WithKey(s[..|s| - 1], key, c) + [s[|s| - 1]]
    else WithKey(s[..|s| - 1], key, c)
  }

  /** Inserts `x` after every element whose key is at most `key(x)`. */
  function Insert<T>(x: T, t: seq<T>, key: T -> real): (r: seq<T>)
    ensures |r| == |t| + 1
    ensures multiset(r) == multiset(t) + multiset{x}
    ensures r[0] == x || (|t| > 0 && r[0] == t[0])
    ensures SortedBy(t, key) ==> SortedBy(r, key)
  {
    if |t| == 0 then [x]
    else if key(t[0]) <= key(x) then
      var rest := Insert(x, t[1..], key);
      assert t == [t[0]] + t[1..];
      [t[0]] + rest
    else [x] + t
  }

  /** The stable sort of `s` by `key`. */
  function SortBy<T>(s: seq<T>, key: T -> real): (r: seq<T>)
    ensures |r| == |s|
    ensures multiset(r) == multiset(s)
    ensures SortedBy(r, key)
  {
    if |s| == 0 then []
    else
      assert s == s[..|s| - 1] + [s[|s| - 1]];
      Insert(s[|s| - 1], SortBy(s[..|s| - 1], key), key)
  }

  lemma {:induction false} WithKeyAppend<T>(s: seq<T>, x: T, key: T -> real, c: real)
    ensures WithKey(s + [x], key, c) == WithKey(s, key, c) + (if key(x) == c then [x] else [])
  {
    assert (s + [x])[..|s + [x]| - 1] == s;
  }

  lemma {:induction false} WithKeyPrepend<T>(x: T, s: seq<T>, key: T -> real, c: real)
    ensures WithKey([x] + s, key, c) == (if key(x) == c then [x] else []) + WithKey(s, key, c)
    decreases |s|
  {
    if |s| > 0 {
      var p := s[..|s| - 1];
      assert ([x] + s)[..|[x] + s| - 1] == [x] + p;
      WithKeyPrepend(x, p, key, c);
    } else {
      assert [x] + s == [] + [x];
      WithKeyAppend([], x, key, c);
    }
  }

  /** Inserting into a sorted list puts `x` after the elements with its key. */
  lemma {:induction false} WithKeyInsert<T>(x: T, t: seq<T>, key: T -> real, c: real)
    requires SortedBy(t, key)
    ensures WithKey(Insert(x, t, key), key, c) == WithKey(t, key, c) + (if key(x) == c then [x] else [])
    decreases |t|
  {
    if |t| == 0 {
      WithKeyAppend([], x, key, c);
      assert [] + [x] == [x];
    } else if key(t[0]) <= key(x) {
      assert SortedBy(t[1..], key);
      WithKeyInsert(x, t[1..], key, c);
      assert Insert(x, t, key) == [t[0]] + Insert(x, t[1..], key);
      assert t == [t[0]] + t[1..];
      WithKeyConsStep(t[0], Insert(x, t[1..], key), t[1..], if key(x) == c then [x] else [], key, c);
    } else {
      WithKeyInsertFront(x, t, key, c);
    }
  }

  /** The step of `WithKeyInsert` where `x` moves past the first element: putting the same
      element in front of two lists keeps the relation between their runs of key `c`. */
  lemma WithKeyConsStep<T>(y: T, rest: seq<T>, t: seq<T>, tail: seq<T>, key: T -> real, c: real)
    requires WithKey(rest, key, c) == WithKey(t, key, c) + tail
    ensures WithKey([y] + rest, key, c) == WithKey([y] + t, key, c) + tail
  {
    var head: seq<T> := if key(y) == c then [y] else [];
    WithKeyPrepend(y, rest, key, c);
    WithKeyPrepend(y, t, key, c);
    assert head + (WithKey(t, key, c) + tail) == (head + WithKey(t, key, c)) + tail;
  }

  /** The step of `WithKeyInsert` where `x` goes in front: no element of `t` has its key. */
  lemma WithKeyInsertFront<T>(x: T, t: seq<T>, key: T -> real, c: real)
    requires SortedBy(t, key)
    requires |t| > 0 && key(t[0]) > key(x)
    ensures WithKey(Insert(x, t, key), key, c) == WithKey(t, key, c) + (if key(x) == c then [x] else [])
  {
    assert Insert(x, t, key) == [x] + t;
    WithKeyPrepend(x, t, key, c);
    if key(x) == c {
      WithKeyNone(t, key, c);
      assert [x] + [] == [] + [x];
    }
  }

  lemma {:induction false} WithKeyNone<T>(t: seq<T>, key: T -> real, c: real)
    requires forall i :: 0 <= i < |t| ==> key(t[i]) != c
    ensures WithKey(t, key, c) == []
    decreases |t|
  {
    if |t| > 0 {
      WithKeyNone(t[..|t| - 1], key, c);
    }
  }

  /** Stability: for every key, the elements with that key keep their input order. */
  lemma {:induction false} SortByStable<T>(s: seq<T>, key: T -> real, c: real)
    ensures WithKey(SortBy(s, key), key, c) == WithKey(s, key, c)
  {
    if |s| > 0 {
      var p := s[..|s| - 1];
      SortByStable(p, key, c);
      WithKeyInsert(s[|s| - 1], SortBy(p, key), key, c);
    }
  }

  /** A list that is already sorted is left as it is. */
  lemma {:induction false} SortBySorted<T>(s: seq<T>, key: T -> real)
    requires SortedBy(s, key)
    ensures SortBy(s, key) == s
  {
    if |s| > 0 {
      var p := s[..|s| - 1];
      assert SortedBy(p, key);
      SortBySorted(p, key);
      InsertAtEnd(s[|s| - 1], p, key);
      assert p + [s[|s| - 1]] == s;
    }
  }

  lemma {:induction false} InsertAtEnd<T>(x: T, t: seq<T>, key: T -> real)
    requires forall i :: 0 <= i < |t| ==> key(t[i]) <= key(x)
    ensures Insert(x, t, key) == t + [x]
    decreases |t|
  {
    if |t| > 0 {
      InsertAtEnd(x, t[1..], key);
      calc {
        Insert(x, t, key);
        [t[0]] + Insert(x, t[1..], key);
        [t[0]] + (t[1..] + [x]);
        ([t[0]] + t[1..]) + [x];
        { assert [t[0]] + t[1..] == t; }
        t + [x];
      }
    }
  }
}
