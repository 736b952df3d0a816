/**
 * `Array.prototype.filter` and the `filter(...).length` counts built on it.
 */
module Lists {
  /** The elements that pass `keep`, in their original order. */
  function Filter<T>(s: seq<T>, keep: T -> bool): (r: seq<T>)
    ensures |r| <= |s|
    ensures forall i :: 0 <= i < |r| ==> r[i] in s && keep(r[i])
    ensures forall i :: 0 <= i < |s| && keep(s[i]) ==> s[i] in r
  {
    if |s| == 0 then []
    else
      assert s == [s[0]] + s[1..];
      (if keep(s[0]) then [s[0]] else []) + Filter(s[1..], keep)
  }

  /** Filtering keeps the order: it distributes over concatenation. */
  lemma {:induction false} FilterAppend<T>(a: seq<T>, b: seq<T>, keep: T -> bool)
    ensures Filter(a + b, keep) == Filter(a, keep) + Filter(b, keep)
  {
    if |a| == 0 {
      assert a + b == b;
    } else {
      assert (a + b)[0] == a[0] && (a + b)[1..] == a[1..] + b;
      FilterAppend(a[1..], b, keep);
    }
  }

  /** When every element passes, the filter returns the list itself. */
  lemma {:induction false} FilterAll<T>(s: seq<T>, keep: T -> bool)
    requires forall i :: 0 <= i < |s| ==> keep(s[i])
    ensures Filter(s, keep) == s
  {
    if |s| > 0 {
      FilterAll(s[1..], keep);
      assert s == [s[0]] + s[1..];
    }
  }

  /** `s.filter(p).length`. */
  function Count<T>(s: seq<T>, p: T -> bool): nat {
    |Filter(s, p)|
  }

  /** The count goes up by one for an element that passes and stays for one that does not. */
  lemma CountSnoc<T>(s: seq<T>, x: T, p: T -> bool)
    ensures Count(s + [x], p) == Count(s, p) + (if p(x) then 1 else 0)
  {
    FilterAppend(s, [x], p);
    assert Filter([x], p) == (if p(x) then [x] else []) + Filter([], p);
  }

  /** Replacing one element changes the count by what that element contributed. */
  lemma {:induction false} CountUpdate<T>(s: seq<T>, i: nat, y: T, p: T -> bool)
    requires i < |s|
    ensures Count(s[i := y], p) + (if p(s[i]) then 1 else 0) == Count(s, p) + (if p(y) then 1 else 0)
  {
    var t := s[i := y];
    if i == 0 {
      assert t == [y] + s[1..];
      assert s == [s[0]] + s[1..];
      FilterAppend([y], s[1..], p);
      FilterAppend([s[0]], s[1..], p);
      assert Filter([y], p) == (if p(y) then [y] else []) + Filter([], p);
      assert Filter([s[0]], p) == (if p(s[0]) then [s[0]] else []) + Filter([], p);
    } else {
      CountUpdate(s[1..], i - 1, y, p);
      assert t[1..] == s[1..][i - 1 := y];
      assert t[0] == s[0];
    }
  }
  /** Two tests that agree on every element filter alike. */
  lemma {:induction false} FilterSameTest<T>(s: seq<T>, f: T -> bool, g: T -> bool)
    requires forall i :: 0 <= i < |s| ==> f(s[i]) == g(s[i])
    ensures Filter(s, f) == Filter(s, g)
  {
    if |s| > 0 {
      FilterSameTest(s[1..], f, g);
    }
  }

  /** An element put in front counts when it passes. */
  lemma CountCons<T>(x: T, s: seq<T>, p: T -> bool)
    ensures Count([x] + s, p) == Count(s, p) + (if p(x) then 1 else 0)
  {
    FilterAppend([x], s, p);
    assert Filter([x], p) == (if p(x) then [x] else []) + Filter([], p);
  }

  /** `Array.prototype.map`. */
  function Map<T, U>(s: seq<T>, f: T -> U): (r: seq<U>)
    ensures |r| == |s|
  {
    if |s| == 0 then [] else [f(s[0])] + Map(s[1..], f)
  }

  /** Each mapped element is the image of the element at the same place. */
  lemma {:induction false} MapAt<T, U>(s: seq<T>, f: T -> U, i: nat)
    requires i < |s|
    ensures Map(s, f)[i] == f(s[i])
  {
    if i > 0 {
      MapAt(s[1..], f, i - 1);
    }
  }

  /** Mapping distributes over concatenation. */
  lemma {:induction false} MapAppend<T, U>(a: seq<T>, b: seq<T>, f: T -> U)
    ensures Map(a + b, f) == Map(a, f) + Map(b, f)
  {
    if |a| == 0 {
      assert a + b == b;
    } else {
      assert (a + b)[0] == a[0] && (a + b)[1..] == a[1..] + b;
      MapAppend(a[1..], b, f);
    }
  }

  /** A list whose every element is the image of the one at the same place is the map. */
  lemma {:induction false} MapPointwise<T, U>(s: seq<T>, f: T -> U, t: seq<U>)
    requires |s| == |t|
    requires forall i :: 0 <= i < |s| ==> f(s[i]) == t[i]
    ensures Map(s, f) == t
  {
    if |s| > 0 {
      MapPointwise(s[1..], f, t[1..]);
      assert t == [t[0]] + t[1..];
    }
  }
}
