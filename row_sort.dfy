/**
 * `rows.sort(cmp)` with the comparator of the mock query (`order(column, {ascending})`).
 * `Array.prototype.sort` is stable; the model is the stable insertion sort, which is
 * the one order a stable sort can produce when the comparator is consistent.
 */
module RowSort {
  import opened JsValues

  datatype Ordering = Ordering(column: string, ascending: bool)

  function Key(r: Row, o: Ordering): Value {
    Field(r, o.column)
  }

  /** The comparator returns -1 for (a, b): `a` is placed strictly before `b`.
      `valA > valB` is `valB < valA` in JavaScript. */
  predicate Before(a: Row, b: Row, o: Ordering) {
    if o.ascending then Less(Key(a, o), Key(b, o)) else Less(Key(b, o), Key(a, o))
  }

  /** Inserts `x` in front of the first row it is not strictly after. */
  function Insert(x: Row, t: seq<Row>, o: Ordering): (r: seq<Row>)
    ensures multiset(r) == multiset(t) + multiset{x}
  {
    if |t| == 0 then [x]
    else if Before(t[0], x, o) then
      assert t == [t[0]] + t[1..];
      [t[0]] + Insert(x, t[1..], o)
    else [x] + t
  }

  function Sort(s: seq<Row>, o: Ordering): seq<Row>
  {
    if |s| == 0 then [] else Insert(s[0], Sort(s[1..], o), o)
  }

  /** Sorting rearranges the rows and drops or adds none. */
  lemma {:induction false} SortPermutation(s: seq<Row>, o: Ordering)
    ensures multiset(Sort(s, o)) == multiset(s)
    ensures |Sort(s, o)| == |s|
  {
    if |s| > 0 {
      SortPermutation(s[1..], o);
      assert s == [s[0]] + s[1..];
    }
  }

  /** The rows whose sort key is `k`, in order. */
  function WithKey(s: seq<Row>, o: Ordering, k: Value): seq<Row>
  {
    if |s| == 0 then []
    else (if Key(s[0], o) == k then [s[0]] else []) + WithKey(s[1..], o, k)
  }

  lemma {:induction false} WithKeyAppend(a: seq<Row>, b: seq<Row>, o: Ordering, k: Value)
    ensures WithKey(a + b, o, k) == WithKey(a, o, k) + WithKey(b, o, k)
  {
    if |a| > 0 {
      assert (a + b)[0] == a[0] && (a + b)[1..] == a[1..] + b;
      WithKeyAppend(a[1..], b, o, k);
    } else {
      assert a + b == b;
    }
  }

  /** The one-row list `[r]` keeps `r` exactly when its key is `k`. */
  lemma WithKeySingle(r: Row, o: Ordering, k: Value)
    ensures WithKey([r], o, k) == if Key(r, o) == k then [r] else []
  {
    assert [r][1..] == [];
  }

  /** A row placed strictly before `x` does not share its key, so at most one of the
      two is kept by `WithKey`, and their order among the kept rows does not matter. */
  lemma KeysNotBoth(x: Row, y: Row, o: Ordering, k: Value)
    requires Before(y, x, o)
    ensures WithKey([y], o, k) + WithKey([x], o, k) == WithKey([x], o, k) + WithKey([y], o, k)
  {
    LessIrreflexive(Key(x, o));
    WithKeySingle(x, o, k);
    WithKeySingle(y, o, k);
  }

  lemma {:induction false} InsertWithKey(x: Row, t: seq<Row>, o: Ordering, k: Value)
    ensures WithKey(Insert(x, t, o), o, k)
            == (if Key(x, o) == k then [x] else []) + WithKey(t, o, k)
  {
    WithKeySingle(x, o, k);
    if |t| > 0 && Before(t[0], x, o) {
      var rest := t[1..];
      assert t == [t[0]] + rest;
      assert Insert(x, t, o) == [t[0]] + Insert(x, rest, o);
      var fx, fy := WithKey([x], o, k), WithKey([t[0]], o, k);
      calc {
        WithKey(Insert(x, t, o), o, k);
        { WithKeyAppend([t[0]], Insert(x, rest, o), o, k); }
        fy + WithKey(Insert(x, rest, o), o, k);
        { InsertWithKey(x, rest, o, k); }
        fy + (fx + WithKey(rest, o, k));
        (fy + fx) + WithKey(rest, o, k);
        { KeysNotBoth(x, t[0], o, k); }
        (fx + fy) + WithKey(rest, o, k);
        fx + (fy + WithKey(rest, o, k));
        { WithKeyAppend([t[0]], rest, o, k); }
        fx + WithKey(t, o, k);
      }
    } else if |t| > 0 {
      WithKeyAppend([x], t, o, k);
    } else {
      WithKeyAppend([x], t, o, k);
      assert [x] + t == [x];
    }
  }

  /** Stability: rows with equal sort keys keep their stored order. */
  lemma {:induction false} SortStable(s: seq<Row>, o: Ordering, k: Value)
    ensures WithKey(Sort(s, o), o, k) == WithKey(s, o, k)
  {
    if |s| > 0 {
      SortStable(s[1..], o, k);
      InsertWithKey(s[0], Sort(s[1..], o), o, k);
    }
  }

  /** No row is placed after a row that should come after it. */
  predicate Sorted(t: seq<Row>, o: Ordering) {
    forall i, j :: 0 <= i < j < |t| ==> !Before(t[j], t[i], o)
  }

  /** The sort keys are all strings or all numbers: the comparator is then consistent. */
  predicate Comparable(s: seq<Row>, o: Ordering) {
    || (forall i :: 0 <= i < |s| ==> Key(s[i], o).Str?)
    || (forall i :: 0 <= i < |s| ==> Key(s[i], o).Num?)
  }

  /** Among rows whose keys are of one kind, `Before` is a strict weak order. */
  lemma BeforeOrder(a: Row, b: Row, c: Row, o: Ordering)
    requires SameKind(Key(a, o), Key(b, o)) && SameKind(Key(b, o), Key(c, o))
    requires Before(a, c, o)
    ensures Before(a, b, o) || Before(b, c, o)
  {
    var ka, kb, kc := Key(a, o), Key(b, o), Key(c, o);
    if kb == ka {
    } else if kb == kc {
    } else if !Before(a, b, o) {
      LessTotal(ka, kb);
      // so b is strictly before a, and a strictly before c
      if o.ascending {
        LessTransitive(kb, ka, kc);
      } else {
        LessTransitive(kc, ka, kb);
      }
    }
  }

  lemma {:induction false} InsertSorted(x: Row, t: seq<Row>, o: Ordering)
    requires Sorted(t, o)
    requires Comparable(t + [x], o)
    ensures Sorted(Insert(x, t, o), o)
  {
    var tx := t + [x];
    assert forall i :: 0 <= i < |t| ==> t[i] == tx[i];
    assert x == tx[|t|];
    var r := Insert(x, t, o);
    if |t| == 0 {
    } else if Before(t[0], x, o) {
      var rest := t[1..];
      assert rest + [x] == tx[1..];
      InsertSorted(x, rest, o);
      var ins := Insert(x, rest, o);
      assert r == [t[0]] + ins;
      forall j | 0 < j < |r| ensures !Before(r[j], r[0], o) {
        assert r[j] in multiset(ins);
        assert r[j] == x || r[j] in rest;
        if r[j] == x {
          if o.ascending {
            LessAsymmetric(Key(t[0], o), Key(x, o));
          } else {
            LessAsymmetric(Key(x, o), Key(t[0], o));
          }
        } else {
          var m :| 0 <= m < |rest| && rest[m] == r[j];
          assert t[m + 1] == r[j];
        }
      }
    } else {
      assert r == [x] + t;
      forall j | 0 < j < |r| ensures !Before(r[j], r[0], o) {
        assert r[j] == t[j - 1];
        if Before(t[j - 1], x, o) {
          BeforeOrder(t[j - 1], t[0], x, o);
        }
      }
    }
  }

  /** With keys of one kind the result is ordered by the column: ascending by default,
      descending when `ascending` is false. */
  lemma {:induction false} SortSorted(s: seq<Row>, o: Ordering)
    requires Comparable(s, o)
    ensures Sorted(Sort(s, o), o)
  {
    if |s| > 0 {
      var rest := s[1..];
      assert forall i :: 0 <= i < |rest| ==> rest[i] == s[i + 1];
      SortSorted(rest, o);
      var t := Sort(rest, o);
      SortPermutation(rest, o);
      var tx := t + [s[0]];
      forall i | 0 <= i < |tx| ensures exists m :: 0 <= m < |s| && tx[i] == s[m] {
        if i < |t| {
          assert tx[i] in multiset(rest);
          var m :| 0 <= m < |rest| && rest[m] == tx[i];
          assert tx[i] == s[m + 1];
        } else {
          assert tx[i] == s[0];
        }
      }
      assert Comparable(tx, o);
      InsertSorted(s[0], t, o);
    }
  }
}
