/**
 * The local fallback of the table client: every table is an array of records kept in
 * browser storage under `gigspace_<table>`, and a query builder accumulates equality
 * filters and an ordering before it reads, inserts, updates, upserts or deletes.
 *
 * Storage is a class whose one field maps table names to what is stored for them; the
 * builder is a class whose `filters` and `ordering` fields its `Eq` and `Order` methods
 * extend, and whose operations read and write the storage it was created over.
 */
module MockClient {
  import opened Wrappers
  import opened JsValues
  import Text
  import RowSort

  /** What is kept for one table: a parsed array of rows, or text that does not parse. */
  datatype Slot = Stored(rows: seq<Row>) | Unreadable

  /** `db.get(table)`: the stored rows; a table never stored, or whose text fails to
      parse, reads as the empty array and never raises. */
  function ReadSlot(slots: map<string, Slot>, table: string): (r: seq<Row>)
    ensures table !in slots ==> r == []
    ensures table in slots && slots[table].Unreadable? ==> r == []
    ensures table in slots && slots[table].Stored? ==> r == slots[table].rows
  {
    if table in slots then
      match slots[table]
      case Stored(rows) => rows
      case Unreadable => []
    else []
  }

  /** Writing a table and reading it back gives what was written; other tables read
      as before. */
  lemma ReadAfterWrite(slots: map<string, Slot>, table: string, rows: seq<Row>, other: string)
    ensures ReadSlot(slots[table := Stored(rows)], table) == rows
    ensures other != table ==> ReadSlot(slots[table := Stored(rows)], other) == ReadSlot(slots, other)
  {
  }

  class Storage {
    var slots: map<string, Slot>

    constructor (initial: map<string, Slot>)
      ensures slots == initial
    {
      slots := initial;
    }

    function Get(table: string): seq<Row>
      reads this
    {
      ReadSlot(slots, table)
    }

    /** `db.set(table, rows)`. */
    method Set(table: string, rows: seq<Row>)
      modifies this
      ensures slots == old(slots)[table := Stored(rows)]
      ensures Get(table) == rows
    {
      slots := slots[table := Stored(rows)];
    }
  }

  /** The record written when the admins table is empty at start-up. */
  function DefaultAdmin(): Row {
    map["id" := Str("mock-admin-1"), "email" := Str("admin@gigspace.com"),
        "access_code" := Str("admin123"), "name" := Str("Demo Admin"), "role" := Str("owner")]
  }

  /** Start-up: an empty admins table gets exactly the default owner; a non-empty one
      is left as it is, and so is every other table. */
  method SeedDefaultAdmin(db: Storage)
    modifies db
    ensures old(db.Get("admins")) == [] ==> db.slots == old(db.slots)["admins" := Stored([DefaultAdmin()])]
    ensures old(db.Get("admins")) != [] ==> db.slots == old(db.slots)
    ensures |db.Get("admins")| >= 1
  {
    var admins := db.Get("admins");
    if |admins| == 0 {
      db.Set("admins", [DefaultAdmin()]);
    }
  }

  /** After start-up the admins table holds at least one owner with the default
      credentials, or the rows it held before. */
  lemma SeededAdminIsOwner()
    ensures Field(DefaultAdmin(), "email") == Str("admin@gigspace.com")
    ensures Field(DefaultAdmin(), "access_code") == Str("admin123")
    ensures Field(DefaultAdmin(), "role") == Str("owner")
  {
  }

  /** `{ type: 'eq', key: column, value }`: the only kind of filter the builder makes. */
  datatype Filter = Eq(column: string, value: Value)

  /** `r[f.key] == f.value`, the test queries apply. */
  predicate MatchesLoose(r: Row, f: Filter) {
    LooseEq(Field(r, f.column), f.value)
  }

  /** `r[f.key] === f.value`, the test `update` and `delete` apply. */
  predicate MatchesStrict(r: Row, f: Filter) {
    StrictEq(Field(r, f.column), f.value)
  }

  predicate MatchesAll(r: Row, fs: seq<Filter>) {
    forall i :: 0 <= i < |fs| ==> MatchesLoose(r, fs[i])
  }

  predicate MatchesAllStrict(r: Row, fs: seq<Filter>) {
    forall i :: 0 <= i < |fs| ==> MatchesStrict(r, fs[i])
  }

  predicate MatchesAnyStrict(r: Row, fs: seq<Filter>) {
    exists i :: 0 <= i < |fs| && MatchesStrict(r, fs[i])
  }

  /** The rows that loosely match every filter, in stored order. */
  function Where(rows: seq<Row>, fs: seq<Filter>): (r: seq<Row>)
    ensures |r| <= |rows|
    ensures forall x :: x in r <==> x in rows && MatchesAll(x, fs)
  {
    if |rows| == 0 then []
    else
      assert rows == [rows[0]] + rows[1..];
      (if MatchesAll(rows[0], fs) then [rows[0]] else []) + Where(rows[1..], fs)
  }

  /** Filtering keeps the stored order: it distributes over concatenation. */
  lemma {:induction false} WhereAppend(a: seq<Row>, b: seq<Row>, fs: seq<Filter>)
    ensures Where(a + b, fs) == Where(a, fs) + Where(b, fs)
  {
    if |a| == 0 {
      assert a + b == b;
    } else {
      assert (a + b)[0] == a[0] && (a + b)[1..] == a[1..] + b;
      WhereAppend(a[1..], b, fs);
    }
  }

  /** With no filters a query returns the whole table. */
  lemma {:induction false} WhereNoFilters(rows: seq<Row>)
    ensures Where(rows, []) == rows
  {
    if |rows| > 0 {
      WhereNoFilters(rows[1..]);
      assert rows == [rows[0]] + rows[1..];
    }
  }

  lemma MatchesAllAppend(r: Row, fs: seq<Filter>, f: Filter)
    ensures MatchesAll(r, fs + [f]) <==> MatchesAll(r, fs) && MatchesLoose(r, f)
  {
    if MatchesAll(r, fs) && MatchesLoose(r, f) {
      forall i | 0 <= i < |fs + [f]| ensures MatchesLoose(r, (fs + [f])[i]) {
        if i < |fs| {
          assert (fs + [f])[i] == fs[i];
        }
      }
    }
    if MatchesAll(r, fs + [f]) {
      forall i | 0 <= i < |fs| ensures MatchesLoose(r, fs[i]) {
        assert (fs + [f])[i] == fs[i];
      }
      assert (fs + [f])[|fs|] == f;
    }
  }

  /** Filtering by one more filter, as the loop in `then` does, refines the query by
      that filter. */
  lemma {:induction false} WhereRefine(rows: seq<Row>, fs: seq<Filter>, f: Filter)
    ensures Where(Where(rows, fs), [f]) == Where(rows, fs + [f])
  {
    if |rows| > 0 {
      var x := rows[0];
      WhereRefine(rows[1..], fs, f);
      MatchesAllAppend(x, fs, f);
      var front := if MatchesAll(x, fs) then [x] else [];
      assert Where(rows, fs) == front + Where(rows[1..], fs);
      WhereAppend(front, Where(rows[1..], fs), [f]);
      if MatchesAll(x, fs) {
        assert Where([x], [f]) == (if MatchesLoose(x, f) then [x] else []) + Where([], [f]);
      } else {
        assert front == [];
      }
    }
  }

  /** The result of a query: the matching rows, sorted stably when an ordering is set. */
  function Query(rows: seq<Row>, fs: seq<Filter>, ordering: Option<RowSort.Ordering>): seq<Row> {
    var matching := Where(rows, fs);
    match ordering
    case None => matching
    case Some(o) => RowSort.Sort(matching, o)
  }

  /** A query returns exactly the stored rows that match every filter, each as often as
      it is stored among the matching ones. */
  lemma QueryRows(rows: seq<Row>, fs: seq<Filter>, ordering: Option<RowSort.Ordering>)
    ensures multiset(Query(rows, fs, ordering)) == multiset(Where(rows, fs))
    ensures forall x :: x in Query(rows, fs, ordering) <==> x in rows && MatchesAll(x, fs)
  {
    if ordering.Some? {
      RowSort.SortPermutation(Where(rows, fs), ordering.value);
      assert forall x :: x in Query(rows, fs, ordering) <==> x in multiset(Where(rows, fs));
    }
  }

  /** Sorted results keep rows with equal keys in stored order. */
  lemma QueryStable(rows: seq<Row>, fs: seq<Filter>, o: RowSort.Ordering, k: Value)
    ensures RowSort.WithKey(Query(rows, fs, Some(o)), o, k) == RowSort.WithKey(Where(rows, fs), o, k)
  {
    RowSort.SortStable(Where(rows, fs), o, k);
  }

  /** With sort keys of one kind the result is ordered by the column. */
  lemma QuerySorted(rows: seq<Row>, fs: seq<Filter>, o: RowSort.Ordering)
    requires RowSort.Comparable(Where(rows, fs), o)
    ensures RowSort.Sorted(Query(rows, fs, Some(o)), o)
  {
    RowSort.SortSorted(Where(rows, fs), o);
  }

  /** `{ id: Date.now().toString(), ...data }`: the generated id is used only when the
      data carries no id of its own. */
  function WithGeneratedId(data: Row, now: nat): (r: Row)
    ensures Field(r, "id") == if "id" in data then data["id"] else Str(Text.DecimalString(now))
    ensures forall k :: k != "id" ==> Field(r, k) == Field(data, k)
  {
    Merge(map["id" := Str(Text.DecimalString(now))], data)
  }

  /** The row a matching `update` writes: the patch merged over the row. */
  function PatchRow(r: Row, fs: seq<Filter>, patch: Row): Row {
    if MatchesAllStrict(r, fs) then Merge(r, patch) else r
  }

  function Patched(rows: seq<Row>, fs: seq<Filter>, patch: Row): seq<Row> {
    seq(|rows|, i requires 0 <= i < |rows| => PatchRow(rows[i], fs, patch))
  }

  /** `update` keeps the length and order of the table; a row that strictly matches
      every filter takes the patch's fields and keeps its others, and any other row is
      untouched. */
  lemma PatchedRows(rows: seq<Row>, fs: seq<Filter>, patch: Row)
    ensures |Patched(rows, fs, patch)| == |rows|
    ensures forall i :: 0 <= i < |rows| && !MatchesAllStrict(rows[i], fs) ==> Patched(rows, fs, patch)[i] == rows[i]
    ensures forall i, k :: 0 <= i < |rows| && MatchesAllStrict(rows[i], fs) ==>
      Field(Patched(rows, fs, patch)[i], k) == if k in patch then patch[k] else Field(rows[i], k)
  {
  }

  /** The number of rows that strictly match every filter. */
  function CountStrict(rows: seq<Row>, fs: seq<Filter>): (n: nat)
    ensures n <= |rows|
  {
    if |rows| == 0 then 0
    else CountStrict(rows[..|rows| - 1], fs) + if MatchesAllStrict(rows[|rows| - 1], fs) then 1 else 0
  }

  /** The count is zero exactly when no row matches, and the table's length exactly
      when every row does. */
  lemma {:induction false} CountStrictExtremes(rows: seq<Row>, fs: seq<Filter>)
    ensures CountStrict(rows, fs) == 0 <==> forall i :: 0 <= i < |rows| ==> !MatchesAllStrict(rows[i], fs)
    ensures CountStrict(rows, fs) == |rows| <==> forall i :: 0 <= i < |rows| ==> MatchesAllStrict(rows[i], fs)
  {
    if |rows| > 0 {
      var init := rows[..|rows| - 1];
      CountStrictExtremes(init, fs);
      assert forall i :: 0 <= i < |init| ==> init[i] == rows[i];
    }
  }

  /** The count adds up over consecutive parts of the table. */
  lemma {:induction false} CountStrictAppend(a: seq<Row>, b: seq<Row>, fs: seq<Filter>)
    ensures CountStrict(a + b, fs) == CountStrict(a, fs) + CountStrict(b, fs)
  {
    if |b| > 0 {
      var b' := b[..|b| - 1];
      assert (a + b)[..|a + b| - 1] == a + b';
      assert (a + b)[|a + b| - 1] == b[|b| - 1];
      CountStrictAppend(a, b', fs);
    } else {
      assert a + b == a;
    }
  }

  /**
   * `findIndex(r => r.id == id)`: the first row whose id loosely equals `id`.
   */
  function FirstIdMatch(rows: seq<Row>, id: Value): (r: Option<nat>)
    ensures r.Some? ==> r.value < |rows| && LooseEq(Field(rows[r.value], "id"), id)
    ensures r.Some? ==> forall j :: 0 <= j < r.value ==> !LooseEq(Field(rows[j], "id"), id)
    ensures r.None? ==> forall j :: 0 <= j < |rows| ==> !LooseEq(Field(rows[j], "id"), id)
  {
    if |rows| == 0 then None
    else if LooseEq(Field(rows[0], "id"), id) then Some(0)
    else
      match FirstIdMatch(rows[1..], id)
      case None => None
      case Some(j) => Some(j + 1)
  }

  /** The table after `upsert(data)`: merged into the first row with a loosely equal
      id, or appended when there is none. */
  function Upserted(rows: seq<Row>, data: Row): seq<Row> {
    match FirstIdMatch(rows, Field(data, "id"))
    case Some(i) => rows[i := Merge(rows[i], data)]
    case None => rows + [data]
  }

  /** An upsert whose id matches changes that one row, which keeps its fields that
      the data does not name; one whose id matches nothing appends the data. */
  lemma UpsertedRows(rows: seq<Row>, data: Row)
    ensures FirstIdMatch(rows, Field(data, "id")).None? ==> Upserted(rows, data) == rows + [data]
    ensures FirstIdMatch(rows, Field(data, "id")).Some? ==>
      var i := FirstIdMatch(rows, Field(data, "id")).value;
      && |Upserted(rows, data)| == |rows|
      && (forall j :: 0 <= j < |rows| && j != i ==> Upserted(rows, data)[j] == rows[j])
      && (forall k :: Field(Upserted(rows, data)[i], k) == if k in data then data[k] else Field(rows[i], k))
  {
  }

  /** Upserting the same data twice leaves the table as upserting it once, for any id
      that is not an array or object (those never compare equal). */
  lemma UpsertIdempotent(rows: seq<Row>, data: Row)
    requires !IsComposite(Field(data, "id"))
    ensures Upserted(Upserted(rows, data), data) == Upserted(rows, data)
  {
    var id := Field(data, "id");
    LooseEqReflexive(id);
    var once := Upserted(rows, data);
    match FirstIdMatch(rows, id)
    case Some(i) =>
      assert Field(once[i], "id") == Field(rows[i], "id") || Field(once[i], "id") == id;
      assert forall j :: 0 <= j < i ==> once[j] == rows[j];
      assert FirstIdMatch(once, id) == Some(i);
      assert Merge(Merge(rows[i], data), data) == Merge(rows[i], data);
    case None =>
      assert once[|rows|] == data;
      assert forall j :: 0 <= j < |rows| ==> once[j] == rows[j];
      assert FirstIdMatch(once, id) == Some(|rows|);
      assert Merge(data, data) == data;
      assert once[|rows| := Merge(data, data)] == once;
  }

  /** The rows `delete` keeps: those that strictly equal no filter, in order. A row is
      dropped when ANY filter matches. */
  function Remaining(rows: seq<Row>, fs: seq<Filter>): (r: seq<Row>)
    ensures |r| <= |rows|
    ensures forall x :: x in r <==> x in rows && !MatchesAnyStrict(x, fs)
  {
    if |rows| == 0 then []
    else
      assert rows == [rows[0]] + rows[1..];
      (if MatchesAnyStrict(rows[0], fs) then [] else [rows[0]]) + Remaining(rows[1..], fs)
  }

  /** `delete` keeps the stored order: it distributes over concatenation. */
  lemma {:induction false} RemainingAppend(a: seq<Row>, b: seq<Row>, fs: seq<Filter>)
    ensures Remaining(a + b, fs) == Remaining(a, fs) + Remaining(b, fs)
  {
    if |a| == 0 {
      assert a + b == b;
    } else {
      assert (a + b)[0] == a[0] && (a + b)[1..] == a[1..] + b;
      RemainingAppend(a[1..], b, fs);
    }
  }

  /** With no filters `delete` removes nothing. */
  lemma {:induction false} RemainingNoFilters(rows: seq<Row>)
    ensures Remaining(rows, []) == rows
  {
    if |rows| > 0 {
      RemainingNoFilters(rows[1..]);
      assert rows == [rows[0]] + rows[1..];
    }
  }

  /** Deleting with several filters is deleting with each in turn: the filters are
      alternatives, not a conjunction. */
  lemma {:induction false} RemainingSuccessive(rows: seq<Row>, fs: seq<Filter>, gs: seq<Filter>)
    ensures Remaining(rows, fs + gs) == Remaining(Remaining(rows, fs), gs)
  {
    if |rows| > 0 {
      var x := rows[0];
      RemainingSuccessive(rows[1..], fs, gs);
      assert MatchesAnyStrict(x, fs + gs) <==> MatchesAnyStrict(x, fs) || MatchesAnyStrict(x, gs) by {
        if MatchesAnyStrict(x, fs) {
          var i :| 0 <= i < |fs| && MatchesStrict(x, fs[i]);
          assert (fs + gs)[i] == fs[i];
        }
        if MatchesAnyStrict(x, gs) {
          var i :| 0 <= i < |gs| && MatchesStrict(x, gs[i]);
          assert (fs + gs)[|fs| + i] == gs[i];
        }
        if MatchesAnyStrict(x, fs + gs) {
          var i :| 0 <= i < |fs + gs| && MatchesStrict(x, (fs + gs)[i]);
          if i < |fs| { assert (fs + gs)[i] == fs[i]; } else { assert (fs + gs)[i] == gs[i - |fs|]; }
        }
      }
      if MatchesAnyStrict(x, fs) {
        assert Remaining(rows, fs) == Remaining(rows[1..], fs);
      } else {
        var r := Remaining(rows, fs);
        assert r == [x] + Remaining(rows[1..], fs);
        assert r[0] == x && r[1..] == Remaining(rows[1..], fs);
      }
    }
  }

  /** With a single filter "any" and "all" agree: `delete().eq(col, v)` removes
      exactly the rows whose `col` strictly equals `v`. */
  lemma SingleFilterDelete(r: Row, f: Filter)
    ensures MatchesAnyStrict(r, [f]) <==> MatchesAllStrict(r, [f])
    ensures MatchesAnyStrict(r, [f]) <==> MatchesStrict(r, f)
  {
    assert [f][0] == f;
    assert MatchesAnyStrict(r, [f]) == MatchesStrict(r, f);
    assert MatchesAllStrict(r, [f]) == MatchesStrict(r, f);
  }

  class MockBuilder {
    const db: Storage
    const table: string
    var filters: seq<Filter>
    var ordering: Option<RowSort.Ordering>

    /** `from(table)`. */
    constructor (db: Storage, table: string)
      ensures this.db == db && this.table == table
      ensures filters == [] && ordering == None
    {
      this.db := db;
      this.table := table;
      filters := [];
      ordering := None;
    }

    /** `eq(column, value)`. */
    method Eq(column: string, value: Value)
      modifies this
      ensures filters == old(filters) + [Filter.Eq(column, value)]
      ensures ordering == old(ordering)
    {
      filters := filters + [Filter.Eq(column, value)];
    }

    /** `order(column, { ascending })`; the source's default is `ascending = true`. */
    method Order(column: string, ascending: bool)
      modifies this
      ensures ordering == Some(RowSort.Ordering(column, ascending))
      ensures filters == old(filters)
    {
      ordering := Some(RowSort.Ordering(column, ascending));
    }

    /** `then`: reads the table, applies the filters one after another, then sorts. */
    method Execute() returns (rows: seq<Row>)
      ensures rows == Query(db.Get(table), filters, ordering)
    {
      var stored := db.Get(table);
      var fs := filters;
      rows := stored;
      WhereNoFilters(stored);
      var i := 0;
      while i < |fs|
        invariant 0 <= i <= |fs|
        invariant rows == Where(stored, fs[..i])
      {
        WhereRefine(stored, fs[..i], fs[i]);
        assert fs[..i + 1] == fs[..i] + [fs[i]];
        rows := Where(rows, [fs[i]]);
        i := i + 1;
      }
      assert fs[..i] == fs;
      assert rows == Where(stored, fs);
      match ordering
      case None =>
      case Some(o) =>
        rows := RowSort.Sort(rows, o);
    }

    /** `single()` with its callback given the rows, as it evidently means to be: the
        first row of the query, or nothing; the error is always absent, for no match
        and for many. */
    method Single() returns (data: Option<Row>, error: Option<string>)
      ensures var q := Query(db.Get(table), filters, ordering);
        data == if |q| > 0 then Some(q[0]) else None
      ensures error == None
    {
      var rows := Execute();
      SingleCallbackOnRows(rows);
      data := SingleCallback(Arr(RowValues(rows)));
      error := None;
    }

    /** `single()` as written: its callback goes to this builder's own `then`, which
        hands it the whole `{ data, error }` result; that is no array, so no row ever
        comes back, whatever the table holds. */
    method SingleAsWritten() returns (data: Option<Row>, error: Option<string>)
      ensures data == None && error == None
    {
      var rows := Execute();
      data := SingleCallback(QueryResult(rows));
      error := None;
    }

    /** `insert(data)`: appends exactly one row, the data under a generated id unless it
        has its own, and returns the stored row. */
    method Insert(data: Row, now: nat) returns (newRow: Row)
      modifies db
      ensures newRow == WithGeneratedId(data, now)
      ensures db.slots == old(db.slots)[table := Stored(old(db.Get(table)) + [newRow])]
    {
      var rows := db.Get(table);
      newRow := WithGeneratedId(data, now);
      rows := rows + [newRow];
      db.Set(table, rows);
    }

    /** `update(patch)`: merges the patch into every row that strictly matches all
        filters and returns how many rows that was. */
    method Update(patch: Row) returns (count: nat)
      modifies db
      ensures db.slots == old(db.slots)[table := Stored(Patched(old(db.Get(table)), filters, patch))]
      ensures count == CountStrict(old(db.Get(table)), filters)
    {
      var rows := db.Get(table);
      var newRows;
      newRows, count := PatchAll(rows, filters, patch);
      db.Set(table, newRows);
    }

    /** `upsert(data)`: merges into the first row with a loosely equal id or appends, and
        returns the data. */
    method Upsert(data: Row) returns (result: Row)
      modifies db
      ensures db.slots == old(db.slots)[table := Stored(Upserted(old(db.Get(table)), data))]
      ensures result == data
    {
      var rows := db.Get(table);
      var id := Field(data, "id");
      var k := 0;
      while k < |rows| && !LooseEq(Field(rows[k], "id"), id)
        invariant 0 <= k <= |rows|
        invariant forall j :: 0 <= j < k ==> !LooseEq(Field(rows[j], "id"), id)
      {
        k := k + 1;
      }
      if k < |rows| {
        assert FirstIdMatch(rows, id) == Some(k) by {
          FirstIdMatchUnique(rows, id, k);
        }
        rows := rows[k := Merge(rows[k], data)];
      } else {
        rows := rows + [data];
      }
      db.Set(table, rows);
      result := data;
    }

    /** `delete()`: keeps the rows for which no filter strictly matches. */
    method Delete()
      modifies db
      ensures db.slots == old(db.slots)[table := Stored(Remaining(old(db.Get(table)), filters))]
    {
      var rows := db.Get(table);
      var kept := KeepAll(rows, filters);
      db.Set(table, kept);
    }

    /** `insert(data).select().single()`: `insert` is `async`, so it answers with a
        promise, which has no `select`; the row is stored and the chain then throws. */
    method InsertThenSelect(data: Row, now: nat) returns (threw: bool)
      modifies db
      ensures db.slots == old(db.slots)[table := Stored(old(db.Get(table)) + [WithGeneratedId(data, now)])]
      ensures threw
    {
      var _ := Insert(data, now);
      threw := true;
    }

    /** `update(patch).eq(column, value)`: the `async` body runs at once with the filters
        gathered so far, and the promise it answers with has no `eq`; the chain throws
        after the write. */
    method UpdateThenEq(patch: Row, column: string, value: Value) returns (threw: bool)
      modifies db
      ensures db.slots == old(db.slots)[table := Stored(Patched(old(db.Get(table)), filters, patch))]
      ensures threw
    {
      var _ := Update(patch);
      threw := true;
    }

    /** `delete().eq(column, value)`: as with `update`, the delete runs with the filters
        gathered so far and the chain throws after it. */
    method DeleteThenEq(column: string, value: Value) returns (threw: bool)
      modifies db
      ensures db.slots == old(db.slots)[table := Stored(Remaining(old(db.Get(table)), filters))]
      ensures threw
    {
      Delete();
      threw := true;
    }
  }

  /** `rows.map(...)` in `update`: each row is patched when it matches and counted. */
  method PatchAll(rows: seq<Row>, filters: seq<Filter>, patch: Row) returns (newRows: seq<Row>, count: nat)
    ensures newRows == Patched(rows, filters, patch)
    ensures count == CountStrict(rows, filters)
  {
    newRows := [];
    count := 0;
    var i := 0;
    while i < |rows|
      invariant 0 <= i <= |rows|
      invariant |newRows| == i
      invariant forall j :: 0 <= j < i ==> newRows[j] == PatchRow(rows[j], filters, patch)
      invariant count == CountStrict(rows[..i], filters)
    {
      var row := rows[i];
      var matched := MatchesEvery(row, filters);
      assert rows[..i + 1][..i] == rows[..i] && rows[..i + 1][i] == row;
      if matched {
        count := count + 1;
        newRows := newRows + [Merge(row, patch)];
      } else {
        newRows := newRows + [row];
      }
      i := i + 1;
    }
    assert rows[..i] == rows;
  }

  /** `rows.filter(...)` in `delete`. */
  method KeepAll(rows: seq<Row>, filters: seq<Filter>) returns (kept: seq<Row>)
    ensures kept == Remaining(rows, filters)
  {
    kept := [];
    var i := 0;
    while i < |rows|
      invariant 0 <= i <= |rows|
      invariant kept == Remaining(rows[..i], filters)
    {
      var row := rows[i];
      var drop := MatchesSome(row, filters);
      assert rows[..i + 1] == rows[..i] + [row];
      RemainingAppend(rows[..i], [row], filters);
      assert Remaining([row], filters) == (if drop then [] else [row]) + Remaining([], filters);
      if !drop {
        kept := kept + [row];
      }
      i := i + 1;
    }
    assert rows[..i] == rows;
  }

  /** The loop in `update`'s callback: a row matches unless some filter's column is
      not strictly equal to its value. */
  method MatchesEvery(row: Row, filters: seq<Filter>) returns (matched: bool)
    ensures matched == MatchesAllStrict(row, filters)
  {
    matched := true;
    var j := 0;
    while j < |filters|
      invariant 0 <= j <= |filters|
      invariant matched <==> forall m :: 0 <= m < j ==> MatchesStrict(row, filters[m])
    {
      if !StrictEq(Field(row, filters[j].column), filters[j].value) {
        matched := false;
      }
      j := j + 1;
    }
  }

  /** The loop in `delete`'s callback: it returns false, dropping the row, at the first
      filter whose column strictly equals its value. */
  method MatchesSome(row: Row, filters: seq<Filter>) returns (drop: bool)
    ensures drop == MatchesAnyStrict(row, filters)
  {
    var j := 0;
    while j < |filters|
      invariant 0 <= j <= |filters|
      invariant forall m :: 0 <= m < j ==> !MatchesStrict(row, filters[m])
    {
      if StrictEq(Field(row, filters[j].column), filters[j].value) {
        return true;
      }
      j := j + 1;
    }
    return false;
  }

  /** The first row whose id matches is the one `FirstIdMatch` finds. */
  lemma {:induction false} FirstIdMatchUnique(rows: seq<Row>, id: Value, k: nat)
    requires k < |rows| && LooseEq(Field(rows[k], "id"), id)
    requires forall j :: 0 <= j < k ==> !LooseEq(Field(rows[j], "id"), id)
    ensures FirstIdMatch(rows, id) == Some(k)
  {
    if k > 0 {
      FirstIdMatchUnique(rows[1..], id, k - 1);
    }
  }
  /** `eq('id', v)` followed by `single()` reads the row that `upsert` merges into. */
  lemma {:induction false} IdQueryFindsUpsertTarget(rows: seq<Row>, v: Value)
    ensures var w := Where(rows, [Eq("id", v)]);
      match FirstIdMatch(rows, v)
      case None => w == []
      case Some(i) => |w| > 0 && w[0] == rows[i]
  {
    if |rows| > 0 {
      var fs := [Eq("id", v)];
      assert MatchesAll(rows[0], fs) <==> LooseEq(Field(rows[0], "id"), v) by {
        assert fs[0] == Eq("id", v);
      }
      IdQueryFindsUpsertTarget(rows[1..], v);
    }
  }
  /** The rows of a result as the array values `then` carries. */
  function RowValues(rows: seq<Row>): (r: seq<Value>)
    ensures |r| == |rows| && forall i :: 0 <= i < |rows| ==> r[i] == Obj(rows[i])
  {
    if |rows| == 0 then [] else [Obj(rows[0])] + RowValues(rows[1..])
  }

  /** What a query resolves with: `{ data: rows, error: null }`. */
  function QueryResult(rows: seq<Row>): Value {
    Obj(map["data" := Arr(RowValues(rows)), "error" := Null])
  }

  /** The callback of `single()`: `Array.isArray(data) && data.length > 0 ? data[0] : null`. */
  function SingleCallback(data: Value): Option<Row> {
    if data.Arr? && |data.items| > 0 && data.items[0].Obj? then Some(data.items[0].fields) else None
  }

  /** Given the rows themselves, the callback picks the first one. */
  lemma SingleCallbackOnRows(rows: seq<Row>)
    ensures SingleCallback(Arr(RowValues(rows))) == if |rows| > 0 then Some(rows[0]) else None
  {
  }

  /** A table holding the one settings row: the query by id finds it, the callback
      given the rows returns it, and `single()` as written returns nothing. */
  lemma SingleAsWrittenCounterexample()
    ensures var rows := [map["id" := Num(1)]];
      var q := Query(rows, [Eq("id", Num(1))], None);
      && q == rows
      && SingleCallback(QueryResult(q)) == None
      && SingleCallback(Arr(RowValues(q))) == Some(rows[0])
  {
    var rows := [map["id" := Num(1)]];
    var f := [Eq("id", Num(1))];
    assert MatchesAll(rows[0], f) by { assert f[0] == Eq("id", Num(1)); }
    assert rows[1..] == [];
    SingleCallbackOnRows(rows);
  }

  /** With no filters `update` patches every row. */
  lemma UnfilteredUpdatePatchesAll(rows: seq<Row>, patch: Row)
    ensures |Patched(rows, [], patch)| == |rows|
    ensures forall i :: 0 <= i < |rows| ==> Patched(rows, [], patch)[i] == Merge(rows[i], patch)
  {
    PatchedRows(rows, [], patch);
  }

  /** Two projects; the view count meant for the first ends up on both when the filter
      is added after `update` has run, and only on the first when it is added before. */
  lemma UpdateBeforeFilterCounterexample()
    ensures var a := map["id" := Str("1"), "views" := Num(5)];
      var b := map["id" := Str("2"), "views" := Num(7)];
      var patch := map["views" := Num(6)];
      && Patched([a, b], [], patch) == [map["id" := Str("1"), "views" := Num(6)], map["id" := Str("2"), "views" := Num(6)]]
      && Patched([a, b], [Eq("id", Str("1"))], patch) == [map["id" := Str("1"), "views" := Num(6)], b]
  {
    var a := map["id" := Str("1"), "views" := Num(5)];
    var b := map["id" := Str("2"), "views" := Num(7)];
    var patch := map["views" := Num(6)];
    var f := [Eq("id", Str("1"))];
    assert MatchesAllStrict(a, f) by { assert f[0] == Eq("id", Str("1")); }
    assert !MatchesAllStrict(b, f) by { assert f[0] == Eq("id", Str("1")) && Field(b, "id") == Str("2"); }
    assert Merge(a, patch) == map["id" := Str("1"), "views" := Num(6)];
    assert Merge(b, patch) == map["id" := Str("2"), "views" := Num(6)];
  }

  /** Two projects; deleting the first removes nothing when the filter is added after
      `delete` has run, and removes just it when the filter is added before. */
  lemma DeleteBeforeFilterCounterexample()
    ensures var a := map["id" := Str("1")];
      var b := map["id" := Str("2")];
      && Remaining([a, b], []) == [a, b]
      && Remaining([a, b], [Eq("id", Str("1"))]) == [b]
  {
    var a := map["id" := Str("1")];
    var b := map["id" := Str("2")];
    var f := [Eq("id", Str("1"))];
    RemainingNoFilters([a, b]);
    assert MatchesAnyStrict(a, f) by { assert f[0] == Eq("id", Str("1")); }
    assert !MatchesAnyStrict(b, f) by { assert f[0] == Eq("id", Str("1")) && Field(b, "id") == Str("2"); }
    RemainingAppend([a], [b], f);
    assert [a, b] == [a] + [b];
    assert Remaining([a], f) == [] by { assert [a][1..] == []; }
    assert Remaining([b], f) == [b] by { assert [b][1..] == []; }
  }
}
