/**
 * Python's ordering of strings (code point by code point, a proper prefix
 * first) and of tuples of strings, and `list.sort(key=...)`: a stable sort,
 * here an insertion sort.
 */
module Ordering {

  /** `a < b` on Python strings. */
  function Lt(a: string, b: string): bool
  {
    if b == [] then false
    else if a == [] then true
    else if a[0] != b[0] then a[0] < b[0]
    else Lt(a[1..], b[1..])
  }

  lemma {:induction false} LtIrreflexive(a: string)
    ensures !Lt(a, a)
  {
    if a != [] {
      LtIrreflexive(a[1..]);
    }
  }

  lemma {:induction false} LtTransitive(a: string, b: string, c: string)
    requires Lt(a, b) && Lt(b, c)
    ensures Lt(a, c)
  {
    if a != [] && b != [] && c != [] && a[0] == b[0] && b[0] == c[0] {
      LtTransitive(a[1..], b[1..], c[1..]);
    }
  }

  lemma {:induction false} LtTotal(a: string, b: string)
    ensures Lt(a, b) || a == b || Lt(b, a)
  {
    if a != [] && b != [] && a[0] == b[0] {
      LtTotal(a[1..], b[1..]);
      if a[1..] == b[1..] {
        assert a == [a[0]] + a[1..] && b == [b[0]] + b[1..];
      }
    }
  }

  /** `a < b` on tuples of strings: the first differing component decides, and a proper prefix comes first. */
  function KeyLt(a: seq<string>, b: seq<string>): bool
  {
    if b == [] then false
    else if a == [] then true
    else if a[0] != b[0] then Lt(a[0], b[0])
    else KeyLt(a[1..], b[1..])
  }

  lemma {:induction false} KeyLtIrreflexive(a: seq<string>)
    ensures !KeyLt(a, a)
  {
    if a != [] {
      KeyLtIrreflexive(a[1..]);
    }
  }

  lemma {:induction false} KeyLtTransitive(a: seq<string>, b: seq<string>, c: seq<string>)
    requires KeyLt(a, b) && KeyLt(b, c)
    ensures KeyLt(a, c)
  {
    if a != [] && b != [] && c != [] {
      if a[0] == b[0] && b[0] == c[0] {
        KeyLtTransitive(a[1..], b[1..], c[1..]);
      } else if a[0] != b[0] && b[0] != c[0] {
        LtTransitive(a[0], b[0], c[0]);
        if a[0] == c[0] {
          LtIrreflexive(a[0]);
        }
      }
    }
  }

  lemma {:induction false} KeyLtTotal(a: seq<string>, b: seq<string>)
    ensures KeyLt(a, b) || a == b || KeyLt(b, a)
  {
    if a != [] && b != [] {
      if a[0] == b[0] {
        KeyLtTotal(a[1..], b[1..]);
        if a[1..] == b[1..] {
          assert a == [a[0]] + a[1..] && b == [b[0]] + b[1..];
        }
      } else {
        LtTotal(a[0], b[0]);
      }
    }
  }

  lemma KeyLtAsymmetric(a: seq<string>, b: seq<string>)
    ensures !(KeyLt(a, b) && KeyLt(b, a))
  {
    if KeyLt(a, b) && KeyLt(b, a) {
      KeyLtTransitive(a, b, a);
      KeyLtIrreflexive(a);
    }
  }

  /** Sorted by `key`: no later element has a smaller key than an earlier one. */
  predicate SortedBy<T>(xs: seq<T>, key: T -> seq<string>)
  {
    forall i, j :: 0 <= i < j < |xs| ==> !KeyLt(key(xs[j]), key(xs[i]))
  }

  /** Appending an element no earlier element exceeds keeps a list sorted. */
  lemma SnocSorted<T>(front: seq<T>, last: T, key: T -> seq<string>)
    requires SortedBy(front, key)
    requires forall y :: y in multiset(front) ==> !KeyLt(key(last), key(y))
    ensures SortedBy(front + [last], key)
  {
    forall i, j | 0 <= i < j < |front| + 1
      ensures !KeyLt(key((front + [last])[j]), key((front + [last])[i]))
    {
      assert (front + [last])[i] == front[i];
      if j == |front| {
        assert front[i] in multiset(front);
      } else {
        assert (front + [last])[j] == front[j];
      }
    }
  }

  /** In a sorted list, nothing before the last element and nothing with a smaller key exceeds the last element. */
  lemma LastIsTop<T>(x: T, xs: seq<T>, key: T -> seq<string>)
    requires SortedBy(xs, key) && xs != [] && KeyLt(key(x), key(xs[|xs| - 1]))
    ensures forall y :: y in multiset(xs[..|xs| - 1]) + multiset{x} ==> !KeyLt(key(xs[|xs| - 1]), key(y))
  {
    var init, last := xs[..|xs| - 1], xs[|xs| - 1];
    forall y | y in multiset(init) + multiset{x}
      ensures !KeyLt(key(last), key(y))
    {
      if y == x {
        KeyLtAsymmetric(key(x), key(last));
      } else {
        assert y in multiset(init);
        var i :| 0 <= i < |init| && init[i] == y;
        assert xs[i] == y;
      }
    }
  }

  /** An element not below the last of a sorted list is not below any of its elements. */
  lemma NotBelowLast<T>(x: T, xs: seq<T>, key: T -> seq<string>)
    requires SortedBy(xs, key) && xs != [] && !KeyLt(key(x), key(xs[|xs| - 1]))
    ensures forall y :: y in multiset(xs) ==> !KeyLt(key(x), key(y))
  {
    var last := xs[|xs| - 1];
    forall y | y in multiset(xs)
      ensures !KeyLt(key(x), key(y))
    {
      var i :| 0 <= i < |xs| && xs[i] == y;
      KeyLtTotal(key(xs[i]), key(last));
      if KeyLt(key(x), key(xs[i])) && KeyLt(key(xs[i]), key(last)) {
        KeyLtTransitive(key(x), key(xs[i]), key(last));
      }
    }
  }

  /** Insert `x` into a sorted list after every element whose key is not greater: the insertion step of a stable sort. */
  function Insert<T(==)>(x: T, xs: seq<T>, key: T -> seq<string>): (r: seq<T>)
    requires SortedBy(xs, key)
    ensures SortedBy(r, key)
    ensures multiset(r) == multiset(xs) + multiset{x}
    ensures |r| == |xs| + 1
  {
    if xs == [] then [x]
    else
      var init, last := xs[..|xs| - 1], xs[|xs| - 1];
      assert xs == init + [last];
      if KeyLt(key(x), key(last)) then
        var front := Insert(x, init, key);
        LastIsTop(x, xs, key);
        SnocSorted(front, last, key);
        front + [last]
      else
        NotBelowLast(x, xs, key);
        SnocSorted(xs, x, key);
        xs + [x]
  }

  /** `sorted(xs, key=key)`: an ordered permutation of `xs`. */
  function SortBy<T(==)>(xs: seq<T>, key: T -> seq<string>): (r: seq<T>)
    ensures SortedBy(r, key)
    ensures multiset(r) == multiset(xs)
    ensures |r| == |xs|
  {
    if xs == [] then []
    else
      var init := xs[..|xs| - 1];
      assert xs == init + [xs[|xs| - 1]];
      Insert(xs[|xs| - 1], SortBy(init, key), key)
  }

  /** The elements of `xs` whose key is `k`, in their order in `xs`. */
  function WithKey<T>(xs: seq<T>, key: T -> seq<string>, k: seq<string>): seq<T>
  {
    if xs == [] then []
    else WithKey(xs[..|xs| - 1], key, k) + (if key(xs[|xs| - 1]) == k then [xs[|xs| - 1]] else [])
  }

  lemma WithKeySnoc<T>(xs: seq<T>, x: T, key: T -> seq<string>, k: seq<string>)
    ensures WithKey(xs + [x], key, k) == WithKey(xs, key, k) + (if key(x) == k then [x] else [])
  {
    assert (xs + [x])[..|xs|] == xs;
  }

  /** Inserting `x` adds it after every element with the same key. */
  lemma {:induction false} InsertStable<T>(x: T, xs: seq<T>, key: T -> seq<string>, k: seq<string>)
    requires SortedBy(xs, key)
    ensures WithKey(Insert(x, xs, key), key, k) == WithKey(xs, key, k) + (if key(x) == k then [x] else [])
  {
    if xs != [] {
      var init, last := xs[..|xs| - 1], xs[|xs| - 1];
      assert xs == init + [last];
      if KeyLt(key(x), key(last)) {
        var front := Insert(x, init, key);
        assert Insert(x, xs, key) == front + [last];
        InsertStable(x, init, key, k);
        WithKeySnoc(front, last, key, k);
        WithKeySnoc(init, last, key, k);
        if key(x) == k {
          KeyLtIrreflexive(k);
        }
      } else {
        assert Insert(x, xs, key) == xs + [x];
        WithKeySnoc(xs, x, key, k);
      }
    }
  }

  /** `SortBy` is stable: the elements sharing a key keep their input order. */
  lemma {:induction false} SortByStable<T>(xs: seq<T>, key: T -> seq<string>, k: seq<string>)
    ensures WithKey(SortBy(xs, key), key, k) == WithKey(xs, key, k)
  {
    if xs != [] {
      var init, last := xs[..|xs| - 1], xs[|xs| - 1];
      assert xs == init + [last];
      SortByStable(init, key, k);
      InsertStable(last, SortBy(init, key), key, k);
      WithKeySnoc(init, last, key, k);
    }
  }
}
