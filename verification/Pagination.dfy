/** `GetByGroup`: one page of a group's rows in id order, as a map from key to value. */
module Pagination {
  import opened Common
  import opened KVTable
  import opened CacheKey
  import opened KVSemantics
  import opened Staleness
  import opened Coherence

  /** SELECT the rows of one plugin's group. */
  function GroupRows(rows: seq<Row>, n: Namespace): seq<Row> {
    if rows == [] then []
    else (if NamespaceOf(rows[0].at) == n then [rows[0]] else []) + GroupRows(rows[1..], n)
  }

  /** LIMIT and OFFSET. */
  function Window<T>(s: seq<T>, limit: nat, offset: nat): seq<T> {
    if offset >= |s| then [] else if offset + limit >= |s| then s[offset..] else s[offset..offset + limit]
  }

  function PageOf(page: int): (p: nat)
    ensures p >= 1
  {
    if page < 1 then 1 else page
  }

  function SizeOf(pageSize: int): (size: nat)
    ensures size >= 1
  {
    if pageSize < 1 then 10 else pageSize
  }

  /** The index into the group's rows of a page's first item. */
  function OffsetOf(page: int, pageSize: int): nat {
    (PageOf(page) - 1) * SizeOf(pageSize)
  }

  function PageRows(rows: seq<Row>, n: Namespace, page: int, pageSize: int): seq<Row> {
    Window(GroupRows(rows, n), SizeOf(pageSize), OffsetOf(page, pageSize))
  }

  /** Later rows overwrite earlier ones, as repeated map assignment does. */
  function AsMap(items: seq<Row>): map<string, string> {
    if items == [] then map[]
    else AsMap(items[..|items| - 1])[items[|items| - 1].at.key := items[|items| - 1].value]
  }

  function GroupPage(rows: seq<Row>, n: Namespace, page: int, pageSize: int): map<string, string> {
    AsMap(PageRows(rows, n, page, pageSize))
  }

  lemma {:induction false} GroupRowsAre(rows: seq<Row>, n: Namespace)
    requires Ordered(rows)
    ensures forall r :: r in GroupRows(rows, n) <==> r in rows && NamespaceOf(r.at) == n
    ensures Ordered(GroupRows(rows, n))
  {
    if rows != [] {
      GroupRowsAre(rows[1..], n);
      assert forall r :: r in rows <==> r == rows[0] || r in rows[1..];
    }
  }

  /** No two items share a key, so a map of them loses none. */
  ghost predicate DistinctKeys(items: seq<Row>) {
    forall i, j :: 0 <= i < j < |items| ==> items[i].at.key != items[j].at.key
  }

  predicate KeyAt(items: seq<Row>, i: int, key: string) {
    0 <= i < |items| && items[i].at.key == key
  }

  ghost predicate KeyWithin(items: seq<Row>, from: int, to: int, key: string) {
    exists i :: from <= i < to && KeyAt(items, i, key)
  }

  lemma {:induction false} AsMapIs(items: seq<Row>, key: string)
    requires DistinctKeys(items)
    ensures |AsMap(items)| == |items|
    ensures key in AsMap(items) <==> exists i :: KeyAt(items, i, key)
    ensures forall i :: KeyAt(items, i, key) ==> AsMap(items)[key] == items[i].value
  {
    if items != [] {
      var front, last := items[..|items| - 1], items[|items| - 1];
      AsMapIs(front, key);
      AsMapIs(front, last.at.key);
      assert KeyAt(items, |items| - 1, last.at.key);
      assert forall i :: KeyAt(front, i, key) ==> KeyAt(items, i, key);
      assert forall i :: KeyAt(items, i, key) ==> i == |items| - 1 || KeyAt(front, i, key);
    }
  }

  /** Exactly which keys a window of distinct rows holds, with which values. */
  lemma WindowHolds(all: seq<Row>, limit: nat, offset: nat, key: string)
    requires DistinctKeys(all)
    ensures var m := AsMap(Window(all, limit, offset));
            && (key in m <==> KeyWithin(all, offset, offset + limit, key))
            && (forall i :: key in m && KeyAt(all, i, key) ==> m[key] == all[i].value)
            && |m| == if offset >= |all| then 0 else if offset + limit >= |all| then |all| - offset else limit
  {
    var w := Window(all, limit, offset);
    AsMapIs(w, key);
    forall i | offset <= i < offset + limit && KeyAt(all, i, key)
      ensures KeyAt(w, i - offset, key)
    {
    }
    assert forall i :: KeyAt(w, i, key) ==> KeyAt(all, offset + i, key);
  }

  lemma GroupRowsDistinct(rows: seq<Row>, n: Namespace)
    requires Ordered(rows)
    ensures DistinctKeys(GroupRows(rows, n))
  {
    GroupRowsAre(rows, n);
    var all := GroupRows(rows, n);
    forall i, j | 0 <= i < j < |all|
      ensures all[i].at.key != all[j].at.key
    {
      assert all[i] in all && all[j] in all && all[i].at != all[j].at;
    }
  }

  lemma GroupRowBinds(rows: seq<Row>, n: Namespace, i: nat)
    requires Ordered(rows) && i < |GroupRows(rows, n)|
    ensures var r := GroupRows(rows, n)[i];
            RowKey(n.slug, n.group, r.at.key) == r.at && Lookup(rows, r.at) == Some(r.value)
  {
    GroupRowsAre(rows, n);
    var r := GroupRows(rows, n)[i];
    assert r in GroupRows(rows, n);
    var j :| 0 <= j < |rows| && rows[j] == r;
    LookupAt(rows, j);
  }

  lemma {:induction false} BoundRowInGroup(rows: seq<Row>, k: RowKey) returns (i: nat)
    requires Lookup(rows, k).Some?
    ensures KeyAt(GroupRows(rows, NamespaceOf(k)), i, k.key)
  {
    if rows[0].at == k {
      i := 0;
    } else {
      var j := BoundRowInGroup(rows[1..], k);
      i := if NamespaceOf(rows[0].at) == NamespaceOf(k) then j + 1 else j;
    }
  }

  /** The rows of the group are exactly the table's bindings in it. */
  lemma GroupRowsBind(rows: seq<Row>, n: Namespace, key: string)
    requires Ordered(rows)
    ensures var all, found := GroupRows(rows, n), Lookup(rows, RowKey(n.slug, n.group, key));
            && (found.Some? <==> exists i :: KeyAt(all, i, key))
            && (forall i :: KeyAt(all, i, key) ==> found == Some(all[i].value))
  {
    var k := RowKey(n.slug, n.group, key);
    assert NamespaceOf(k) == n;
    if Lookup(rows, k).Some? {
      var i := BoundRowInGroup(rows, k);
      assert KeyAt(GroupRows(rows, n), i, key);
    }
    if i :| KeyAt(GroupRows(rows, n), i, key) {
      GroupRowBinds(rows, n, i);
    }
    forall i | KeyAt(GroupRows(rows, n), i, key)
      ensures Lookup(rows, k) == Some(GroupRows(rows, n)[i].value)
    {
      GroupRowBinds(rows, n, i);
    }
  }

  lemma PageHoldsWindow(rows: seq<Row>, n: Namespace, page: int, pageSize: int, key: string)
    requires Ordered(rows)
    ensures var m, all := GroupPage(rows, n, page, pageSize), GroupRows(rows, n);
            && (key in m <==> KeyWithin(all, OffsetOf(page, pageSize), OffsetOf(page, pageSize) + SizeOf(pageSize), key))
            && (key in m ==> Lookup(rows, RowKey(n.slug, n.group, key)) == Some(m[key]))
  {
    hide AsMap, Window, GroupRows, OffsetOf;
    GroupRowsDistinct(rows, n);
    WindowHolds(GroupRows(rows, n), SizeOf(pageSize), OffsetOf(page, pageSize), key);
    GroupRowsBind(rows, n, key);
  }

  lemma PageCountWindow(rows: seq<Row>, n: Namespace, page: int, pageSize: int)
    requires Ordered(rows)
    ensures var left := |GroupRows(rows, n)| - OffsetOf(page, pageSize);
            |GroupPage(rows, n, page, pageSize)| ==
            if left <= 0 then 0 else if left < SizeOf(pageSize) then left else SizeOf(pageSize)
  {
    hide AsMap, Window, GroupRows, OffsetOf;
    GroupRowsDistinct(rows, n);
    WindowHolds(GroupRows(rows, n), SizeOf(pageSize), OffsetOf(page, pageSize), "");
  }

  /** A page below 1 is page 1, and a size below 1 is size 10. */
  lemma PageDefaults(rows: seq<Row>, n: Namespace, page: int, pageSize: int)
    ensures page < 1 ==> GroupPage(rows, n, page, pageSize) == GroupPage(rows, n, 1, pageSize)
    ensures pageSize < 1 ==> GroupPage(rows, n, page, pageSize) == GroupPage(rows, n, page, 10)
  {
  }

  /**
    A page holds exactly the keys of the group's rows, taken in id order, from index
    (page - 1) * pageSize up to but not including page * pageSize, with the rows' values.
  */
  lemma PageHolds(rows: seq<Row>, n: Namespace, page: nat, pageSize: nat, key: string)
    requires Ordered(rows) && page >= 1 && pageSize >= 1
    ensures var m, all := GroupPage(rows, n, page, pageSize), GroupRows(rows, n);
            && (key in m <==> exists i :: (page - 1) * pageSize <= i < page * pageSize && i < |all| && all[i].at.key == key)
            && (key in m ==> Lookup(rows, RowKey(n.slug, n.group, key)) == Some(m[key]))
  {
    WindowOfPage(page, pageSize);
    PageHoldsWindow(rows, n, page, pageSize, key);
    var all := GroupRows(rows, n);
    if i :| (page - 1) * pageSize <= i < page * pageSize && i < |all| && all[i].at.key == key {
      assert KeyAt(all, i, key);
    }
    if KeyWithin(all, (page - 1) * pageSize, page * pageSize, key) {
      var i :| (page - 1) * pageSize <= i < page * pageSize && KeyAt(all, i, key);
    }
  }

  /** A page has pageSize keys, or as many as are left of the group's rows after the pages before it. */
  lemma PageCount(rows: seq<Row>, n: Namespace, page: nat, pageSize: nat)
    requires Ordered(rows) && page >= 1 && pageSize >= 1
    ensures var left := |GroupRows(rows, n)| - (page - 1) * pageSize;
            |GroupPage(rows, n, page, pageSize)| == if left <= 0 then 0 else if left < pageSize then left else pageSize
  {
    WindowOfPage(page, pageSize);
    PageCountWindow(rows, n, page, pageSize);
  }

  lemma WindowOfPage(page: nat, pageSize: nat)
    requires page >= 1 && pageSize >= 1
    ensures OffsetOf(page, pageSize) == (page - 1) * pageSize
    ensures OffsetOf(page, pageSize) + SizeOf(pageSize) == page * pageSize
  {
  }

  lemma OffsetsApart(p: int, q: int, pageSize: int)
    requires PageOf(p) < PageOf(q)
    ensures OffsetOf(p, pageSize) + SizeOf(pageSize) <= OffsetOf(q, pageSize)
  {
    var size, between := SizeOf(pageSize), PageOf(q) - PageOf(p) - 1;
    calc {
      OffsetOf(q, pageSize);
      (PageOf(p) - 1 + 1 + between) * size;
      OffsetOf(p, pageSize) + size + between * size;
    }
    assert between * size >= 0;
  }

  /** Different pages of one size share no key. */
  lemma PagesDisjoint(rows: seq<Row>, n: Namespace, p: int, q: int, pageSize: int)
    requires Ordered(rows) && PageOf(p) < PageOf(q)
    ensures GroupPage(rows, n, p, pageSize).Keys !! GroupPage(rows, n, q, pageSize).Keys
  {
    var all, size := GroupRows(rows, n), SizeOf(pageSize);
    GroupRowsDistinct(rows, n);
    OffsetsApart(p, q, pageSize);
    var a, b := OffsetOf(p, pageSize), OffsetOf(q, pageSize);
    forall key | key in GroupPage(rows, n, p, pageSize)
      ensures key !in GroupPage(rows, n, q, pageSize)
    {
      WindowHolds(all, size, a, key);
      WindowHolds(all, size, b, key);
    }
  }

  lemma PageOfIndex(i: nat, pageSize: int) returns (p: int)
    ensures p >= 1 && OffsetOf(p, pageSize) <= i < OffsetOf(p, pageSize) + SizeOf(pageSize)
  {
    p := i / SizeOf(pageSize) + 1;
  }

  /** A key is on some page iff its row exists, whatever the page size. */
  lemma PagesCoverGroup(rows: seq<Row>, n: Namespace, pageSize: int, key: string)
    requires Ordered(rows)
    ensures (exists p: int :: key in GroupPage(rows, n, p, pageSize)) <==> Lookup(rows, RowKey(n.slug, n.group, key)).Some?
  {
    hide GroupPage, GroupRows;
    GroupRowsBind(rows, n, key);
    if p: int :| key in GroupPage(rows, n, p, pageSize) {
      PageHoldsWindow(rows, n, p, pageSize, key);
    }
    if i :| KeyAt(GroupRows(rows, n), i, key) {
      var p := PageOfIndex(i, pageSize);
      PageHoldsWindow(rows, n, p, pageSize, key);
      assert KeyWithin(GroupRows(rows, n), OffsetOf(p, pageSize), OffsetOf(p, pageSize) + SizeOf(pageSize), key);
      assert key in GroupPage(rows, n, p, pageSize);
    }
  }

  /**
    After any run from the empty store, a cached read of an address on some page returns the
    page's value, and of an address on no page reports it missing, in a coherent state.
  */
  lemma PagesAgreeWithReads(
    ns: iset<Namespace>, es: seq<Event>, n: Namespace, pageSize: int, key: string, env: Env, ttl: int)
    requires n in ns && Coherent(ns, Run(es, Empty)) && key != "" && env.dbOk
    ensures var s := Run(es, Empty).(ttl := ttl);
            var read := GetCall(n.slug, false, n.group, key, env, s).result;
            && (forall p: int :: key in GroupPage(s.table.rows, n, p, pageSize) ==>
                                   read == Success(GroupPage(s.table.rows, n, p, pageSize)[key]))
            && ((forall p: int :: key !in GroupPage(s.table.rows, n, p, pageSize)) ==> read == Failure(NotFound))
  {
    RunValid(es, Empty);
    var s := Run(es, Empty).(ttl := ttl);
    assert Coherent(ns, s) by {
      assert forall k: RowKey :: Stale(s, k) == Stale(Run(es, Empty), k);
    }
    CoherentReads(ns, n.slug, false, n.group, key, env, s);
    PagesCoverGroup(s.table.rows, n, pageSize, key);
    forall p: int | key in GroupPage(s.table.rows, n, p, pageSize)
      ensures Lookup(s.table.rows, RowKey(n.slug, n.group, key)) == Some(GroupPage(s.table.rows, n, p, pageSize)[key])
    {
      PageHoldsWindow(s.table.rows, n, p, pageSize, key);
    }
  }
}
