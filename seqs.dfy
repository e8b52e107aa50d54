/** Sequence operations the source takes from its array and collections
    libraries (`Array.prototype.filter`, `mapMaybe`), with the facts the
    model relies on. */
module Seqs {
  import opened Wrappers

  /** `s.filter(p)`: the elements of `s` satisfying `p`, in order. */
  function Filter<T>(s: seq<T>, p: T -> bool): (r: seq<T>)
    ensures |r| <= |s|
    ensures forall k :: 0 <= k < |r| ==> p(r[k])
  {
    if s == [] then []
    else if p(s[0]) then [s[0]] + Filter(s[1..], p)
    else Filter(s[1..], p)
  }

  /** Filtering a concatenation filters each part: the kept elements stay in
      their original relative order. */
  lemma {:induction false} FilterConcat<T>(a: seq<T>, b: seq<T>, p: T -> bool)
    ensures Filter(a + b, p) == Filter(a, p) + Filter(b, p)
  {
    if a == [] {
      assert a + b == b;
    } else {
      assert (a + b)[0] == a[0];
      assert (a + b)[1..] == a[1..] + b;
      FilterConcat(a[1..], b, p);
    }
  }

  /** Every element satisfying `p` is kept as often as it occurs; every other
      element is dropped. */
  lemma {:induction false} FilterMultiset<T>(s: seq<T>, p: T -> bool, x: T)
    ensures multiset(Filter(s, p))[x] == if p(x) then multiset(s)[x] else 0
  {
    if s != [] {
      FilterMultiset(s[1..], p, x);
      assert s == [s[0]] + s[1..];
      assert multiset(s) == multiset([s[0]]) + multiset(s[1..]);
    }
  }

  lemma FilterMembership<T>(s: seq<T>, p: T -> bool, x: T)
    ensures x in Filter(s, p) <==> x in s && p(x)
  {
    FilterMultiset(s, p, x);
    assert x in Filter(s, p) <==> x in multiset(Filter(s, p));
    assert x in s <==> x in multiset(s);
  }

  /** When every element passes, nothing is dropped. */
  lemma {:induction false} FilterKeepsAll<T>(s: seq<T>, p: T -> bool)
    requires forall k :: 0 <= k < |s| ==> p(s[k])
    ensures Filter(s, p) == s
  {
    if s != [] {
      FilterKeepsAll(s[1..], p);
    }
  }

  /** `mapMaybe(f, s)`: apply `f` to each element, keep the `Some` values in
      order and drop the elements mapped to `None`. */
  function MapMaybe<T, U>(f: T -> Option<U>, s: seq<T>): (r: seq<U>)
    ensures |r| <= |s|
  {
    if s == [] then []
    else match f(s[0])
      case Some(y) => [y] + MapMaybe(f, s[1..])
      case None => MapMaybe(f, s[1..])
  }

  lemma {:induction false} MapMaybeConcat<T, U>(f: T -> Option<U>, a: seq<T>, b: seq<T>)
    ensures MapMaybe(f, a + b) == MapMaybe(f, a) + MapMaybe(f, b)
  {
    if a == [] {
      assert a + b == b;
    } else {
      assert (a + b)[0] == a[0];
      assert (a + b)[1..] == a[1..] + b;
      MapMaybeConcat(f, a[1..], b);
    }
  }

  /** `y` is in the result exactly when some element is mapped to `Some(y)`. */
  lemma {:induction false} MapMaybeMembership<T, U>(f: T -> Option<U>, s: seq<T>, y: U)
    ensures y in MapMaybe(f, s) <==> exists k :: 0 <= k < |s| && f(s[k]) == Some(y)
  {
    if s != [] {
      MapMaybeMembership(f, s[1..], y);
      if exists k :: 0 <= k < |s[1..]| && f(s[1..][k]) == Some(y) {
        var k :| 0 <= k < |s[1..]| && f(s[1..][k]) == Some(y);
        assert f(s[k + 1]) == Some(y);
      }
      if exists k :: 0 <= k < |s| && f(s[k]) == Some(y) {
        var k :| 0 <= k < |s| && f(s[k]) == Some(y);
        if k > 0 {
          assert f(s[1..][k - 1]) == Some(y);
        }
      }
    }
  }
}
