/**
  The `plugin_kv_storage` table: rows in id order, addressed by plugin slug, group and key.
  The functions are the statements the operator issues; the lemmas say what each of them
  does to every point lookup.
*/
module KVTable {
  import opened Common

  datatype RowKey = RowKey(slug: string, group: string, key: string)

  datatype Row = Row(id: nat, at: RowKey, value: string)

  /** `nextId` is the auto-increment counter; it never goes back. */
  datatype Table = Table(rows: seq<Row>, nextId: nat)

  /** The WHERE clause of `Del`: an empty group or key puts no condition on that column. */
  datatype Filter = Filter(slug: string, group: string, key: string)

  predicate Matches(f: Filter, k: RowKey) {
    && k.slug == f.slug
    && (f.group != "" ==> k.group == f.group)
    && (f.key != "" ==> k.key == f.key)
  }

  /** Ids increase along the sequence and no address occurs twice. */
  ghost predicate Ordered(rows: seq<Row>) {
    forall i, j :: 0 <= i < j < |rows| ==> rows[i].id < rows[j].id && rows[i].at != rows[j].at
  }

  ghost predicate Valid(t: Table) {
    && Ordered(t.rows)
    && forall r :: r in t.rows ==> r.id < t.nextId && r.at.key != ""
  }

  /** SELECT the value at an address. */
  function Lookup(rows: seq<Row>, k: RowKey): Option<string> {
    if rows == [] then None
    else if rows[0].at == k then Some(rows[0].value)
    else Lookup(rows[1..], k)
  }

  /** UPDATE the value column of the rows at an address. */
  function Updated(rows: seq<Row>, k: RowKey, v: string): seq<Row> {
    if rows == [] then []
    else [if rows[0].at == k then rows[0].(value := v) else rows[0]] + Updated(rows[1..], k, v)
  }

  /** The affected-row count of that UPDATE: the rows its WHERE clause matches. */
  function Affected(rows: seq<Row>, k: RowKey): nat {
    if rows == [] then 0
    else (if rows[0].at == k then 1 else 0) + Affected(rows[1..], k)
  }

  /** INSERT a row under the next id. */
  function Inserted(t: Table, k: RowKey, v: string): Table {
    Table(t.rows + [Row(t.nextId, k, v)], t.nextId + 1)
  }

  /** DELETE the rows a filter matches. */
  function Removed(rows: seq<Row>, f: Filter): seq<Row> {
    if rows == [] then []
    else (if Matches(f, rows[0].at) then [] else [rows[0]]) + Removed(rows[1..], f)
  }

  /** UPDATE, then INSERT when nothing was affected. */
  function Upserted(t: Table, k: RowKey, v: string): Table {
    if Affected(t.rows, k) == 0 then Inserted(t, k, v) else Table(Updated(t.rows, k, v), t.nextId)
  }

  lemma {:induction false} AffectedIffPresent(rows: seq<Row>, k: RowKey)
    ensures Affected(rows, k) == 0 <==> Lookup(rows, k) == None
  {
    if rows != [] {
      AffectedIffPresent(rows[1..], k);
    }
  }

  lemma {:induction false} LookupUpdated(rows: seq<Row>, k: RowKey, v: string, other: RowKey)
    ensures Lookup(Updated(rows, k, v), other) ==
            if other == k && Lookup(rows, k).Some? then Some(v) else Lookup(rows, other)
  {
    if rows != [] {
      LookupUpdated(rows[1..], k, v, other);
      assert Updated(rows, k, v)[1..] == Updated(rows[1..], k, v);
    }
  }

  lemma {:induction false} LookupAppended(rows: seq<Row>, r: Row, k: RowKey)
    ensures Lookup(rows + [r], k) ==
            if Lookup(rows, k).Some? then Lookup(rows, k) else if r.at == k then Some(r.value) else None
  {
    if rows != [] {
      LookupAppended(rows[1..], r, k);
      assert (rows + [r])[1..] == rows[1..] + [r];
    } else {
      assert rows + [r] == [r];
    }
  }

  /** A write changes the lookup of its own address and of no other. */
  lemma LookupUpserted(t: Table, k: RowKey, v: string, other: RowKey)
    ensures Lookup(Upserted(t, k, v).rows, other) == if other == k then Some(v) else Lookup(t.rows, other)
  {
    AffectedIffPresent(t.rows, k);
    LookupUpdated(t.rows, k, v, other);
    LookupAppended(t.rows, Row(t.nextId, k, v), other);
  }

  /** A delete empties exactly the addresses its filter matches. */
  lemma {:induction false} LookupRemoved(rows: seq<Row>, f: Filter, k: RowKey)
    ensures Lookup(Removed(rows, f), k) == if Matches(f, k) then None else Lookup(rows, k)
  {
    if rows != [] {
      LookupRemoved(rows[1..], f, k);
      var rest := Removed(rows[1..], f);
      if Matches(f, rows[0].at) {
        assert Removed(rows, f) == rest;
      } else {
        assert Removed(rows, f) == [rows[0]] + rest;
      }
    }
  }

  /** An address is found iff some row holds it, and in a valid table that row is the only one. */
  lemma {:induction false} LookupIff(rows: seq<Row>, k: RowKey)
    ensures Lookup(rows, k).Some? <==> exists i :: 0 <= i < |rows| && rows[i].at == k
  {
    if rows != [] {
      LookupIff(rows[1..], k);
      if rows[0].at != k && Lookup(rows[1..], k).Some? {
        var i :| 0 <= i < |rows[1..]| && rows[1..][i].at == k;
        assert rows[i + 1].at == k;
      }
      if i :| 0 <= i < |rows| && rows[i].at == k && rows[0].at != k {
        assert rows[1..][i - 1].at == k;
      }
    }
  }

  lemma {:induction false} LookupAt(rows: seq<Row>, i: nat)
    requires i < |rows|
    requires Ordered(rows)
    ensures Lookup(rows, rows[i].at) == Some(rows[i].value)
  {
    if i > 0 {
      assert rows[0].at != rows[i].at;
      LookupAt(rows[1..], i - 1);
    }
  }

  lemma {:induction false} UpdatedShape(rows: seq<Row>, k: RowKey, v: string)
    ensures |Updated(rows, k, v)| == |rows|
    ensures forall i :: 0 <= i < |rows| ==>
              Updated(rows, k, v)[i] == if rows[i].at == k then rows[i].(value := v) else rows[i]
  {
    if rows != [] {
      UpdatedShape(rows[1..], k, v);
    }
  }

  /** An update changes the value in place; only a missing row is inserted, last and under the next id. */
  lemma UpsertedRows(t: Table, k: RowKey, v: string)
    ensures var rows, after := t.rows, Upserted(t, k, v);
            if exists i :: 0 <= i < |rows| && rows[i].at == k
            then && |after.rows| == |rows| && after.nextId == t.nextId
                 && forall i :: 0 <= i < |rows| ==>
                      after.rows[i] == Row(rows[i].id, rows[i].at, if rows[i].at == k then v else rows[i].value)
            else after.rows == rows + [Row(t.nextId, k, v)] && after.nextId == t.nextId + 1
  {
    AffectedIffPresent(t.rows, k);
    LookupIff(t.rows, k);
    UpdatedShape(t.rows, k, v);
  }

  lemma UpdatedOrdered(rows: seq<Row>, k: RowKey, v: string)
    requires Ordered(rows)
    ensures Ordered(Updated(rows, k, v))
  {
    UpdatedShape(rows, k, v);
  }

  lemma InsertedOrdered(rows: seq<Row>, r: Row)
    requires Ordered(rows)
    requires forall x :: x in rows ==> x.id < r.id && x.at != r.at
    ensures Ordered(rows + [r])
  {
  }

  /** Writing keeps ids increasing and addresses unique. */
  lemma UpsertedValid(t: Table, k: RowKey, v: string)
    requires Valid(t) && k.key != ""
    ensures Valid(Upserted(t, k, v))
  {
    AffectedIffPresent(t.rows, k);
    if Affected(t.rows, k) == 0 {
      LookupIff(t.rows, k);
      InsertedOrdered(t.rows, Row(t.nextId, k, v));
    } else {
      UpdatedOrdered(t.rows, k, v);
      UpdatedShape(t.rows, k, v);
    }
  }

  lemma {:induction false} RemovedRows(rows: seq<Row>, f: Filter)
    ensures forall r :: r in Removed(rows, f) <==> r in rows && !Matches(f, r.at)
  {
    if rows != [] {
      RemovedRows(rows[1..], f);
      assert forall r :: r in rows <==> r == rows[0] || r in rows[1..];
    }
  }

  lemma {:induction false} RemovedOrdered(rows: seq<Row>, f: Filter)
    requires Ordered(rows)
    ensures Ordered(Removed(rows, f))
  {
    if rows != [] {
      RemovedOrdered(rows[1..], f);
      RemovedRows(rows[1..], f);
    }
  }

  /** Deleting keeps the remaining rows in order. */
  lemma RemovedValid(t: Table, f: Filter)
    requires Valid(t)
    ensures Valid(Table(Removed(t.rows, f), t.nextId))
  {
    RemovedOrdered(t.rows, f);
    RemovedRows(t.rows, f);
  }
}
