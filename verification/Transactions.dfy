/**
  Transactions, nested to any depth: how many sessions and commits they cost, what they
  leave in the table, and what they leave in a cache that is not transactional.
*/
module Transactions {
  import opened Common
  import opened KVTable
  import opened CacheKey
  import opened KVSemantics
  import opened Staleness
  import opened Coherence

  /** The calls a callback makes, nested transactions opened up. */
  function Flatten(ops: seq<Op>): seq<Op>
    decreases ops, 0
  {
    if ops == [] then [] else FlattenOne(ops[0]) + Flatten(ops[1..])
  }

  function FlattenOne(op: Op): seq<Op>
    decreases op, 1
  {
    if op.Tx? then Flatten(op.body) else [op]
  }

  /** What one call writes, the cache and all session handling aside. */
  function WrittenBy(slug: string, call: Op, t: Table): Table {
    match call
    case Set(group, key, value, env) =>
      var k := RowKey(slug, group, key);
      if key == "" || !env.dbOk || (Lookup(t.rows, k) == None && !env.insertOk) then t else Upserted(t, k, value)
    case Del(group, key, env) =>
      if (key == "" && group == "") || !env.dbOk then t
      else Table(Removed(t.rows, Filter(slug, group, key)), t.nextId)
    case _ => t
  }

  function Written(slug: string, calls: seq<Op>, t: Table): Table
    decreases |calls|
  {
    if calls == [] then t else Written(slug, calls[1..], WrittenBy(slug, calls[0], t))
  }

  lemma {:induction false} WrittenConcat(slug: string, a: seq<Op>, b: seq<Op>, t: Table)
    ensures Written(slug, a + b, t) == Written(slug, b, Written(slug, a, t))
    decreases |a|
  {
    if a == [] {
      assert a + b == b;
    } else {
      assert (a + b)[1..] == a[1..] + b;
      WrittenConcat(slug, a[1..], b, WrittenBy(slug, a[0], t));
    }
  }

  /** The effect of calls on an operator that holds a session: writes, and no session handling. */
  predicate WritesOnly(slug: string, calls: seq<Op>, s: State, after: State) {
    && after.table == Written(slug, calls, s.table)
    && after.sessions == s.sessions
    && after.commits == s.commits
  }

  lemma OneCallWritesOnly(slug: string, op: Op, s: State)
    requires !op.Tx?
    ensures WritesOnly(slug, [op], s, Exec(slug, true, op, s))
  {
    assert [op][1..] == [];
    assert Written(slug, [op], s.table) == WrittenBy(slug, op, s.table);
    if op.Set? {
      AffectedIffPresent(s.table.rows, RowKey(slug, op.group, op.key));
    }
  }

  lemma {:induction false} InnerCalls(slug: string, op: Op, s: State)
    ensures WritesOnly(slug, FlattenOne(op), s, Exec(slug, true, op, s))
    decreases op, 1
  {
    if op.Tx? {
      InnerBody(slug, op.body, s);
    } else {
      OneCallWritesOnly(slug, op, s);
    }
  }

  /** With a session at hand, nested calls run their flattened writes and touch no session. */
  lemma {:induction false} InnerBody(slug: string, ops: seq<Op>, s: State)
    ensures WritesOnly(slug, Flatten(ops), s, ExecAll(slug, true, ops, s))
    decreases ops, 0
  {
    if ops != [] {
      var mid := Exec(slug, true, ops[0], s);
      InnerCalls(slug, ops[0], s);
      InnerBody(slug, ops[1..], mid);
      WrittenConcat(slug, FlattenOne(ops[0]), Flatten(ops[1..]), s.table);
    }
  }

  /**
    An outermost transaction opens one session, commits once if it succeeds and never
    otherwise, and leaves either every write of its callback, nested calls included, or none.
  */
  lemma OuterTxIsAllOrNothing(slug: string, body: seq<Op>, env: TxEnv, s: State)
    ensures var after, succeeds := Exec(slug, false, Tx(body, env), s), env.beginOk && env.fnOk && env.commitOk;
            && after.sessions == s.sessions + 1
            && after.commits == s.commits + (if succeeds then 1 else 0)
            && after.ttl == s.ttl
            && after.table.rows == if succeeds then Written(slug, Flatten(body), s.table).rows else s.table.rows
  {
    InnerBody(slug, body, Opened(false, s).(ttl := 0));
  }

  /** The same calls in the same nesting; only how the nested transactions end may differ. */
  predicate SameCalls(a: Op, b: Op)
    decreases a
  {
    if a.Tx? && b.Tx?
    then |a.body| == |b.body| && forall i :: 0 <= i < |a.body| ==> SameCalls(a.body[i], b.body[i])
    else a == b
  }

  lemma {:induction false} SameCallsDoTheSame(slug: string, a: seq<Op>, b: seq<Op>, s: State)
    requires |a| == |b| && forall i :: 0 <= i < |a| ==> SameCalls(a[i], b[i])
    ensures ExecAll(slug, true, a, s) == ExecAll(slug, true, b, s)
    decreases a
  {
    if a != [] {
      if a[0].Tx? {
        SameCallsDoTheSame(slug, a[0].body, b[0].body, s);
      }
      SameCallsDoTheSame(slug, a[1..], b[1..], Exec(slug, true, a[0], s));
    }
  }

  /**
    However the nested transactions end, at any depth, the outermost one leaves the same
    table and the same cache: a nested transaction that fails keeps its writes.
  */
  lemma NestedOutcomeIsIgnored(slug: string, body: seq<Op>, other: seq<Op>, env: TxEnv, s: State)
    requires SameCalls(Tx(body, env), Tx(other, env))
    ensures Exec(slug, false, Tx(body, env), s) == Exec(slug, false, Tx(other, env), s)
  {
    SameCallsDoTheSame(slug, body, other, Opened(false, s).(ttl := 0));
  }

  // ----- The cache after a committed transaction -----

  /** Point calls whose cache cleans happen, to any depth. */
  predicate CleanCall(op: Op)
    decreases op
  {
    match op
    case Tx(body, _) => forall i :: 0 <= i < |body| ==> CleanCall(body[i])
    case SetTTL(ttl) => ttl >= 0
    case _ => PointOp(op) && CacheDeletesWork(op)
  }

  predicate Unblemished(m: Mark) {
    m.ttl >= 0 && !m.wiped && !m.skipped && !m.phantom
  }

  lemma {:induction false} CleanCallsUnblemished(slug: string, op: Op, k: RowKey, m: Mark)
    requires CleanCall(op) && Unblemished(m)
    ensures Unblemished(MarkOp(slug, true, op, k, m))
    decreases op, 1
  {
    if op.Tx? {
      CleanBodyUnblemished(slug, op.body, k, m);
    }
  }

  lemma {:induction false} CleanBodyUnblemished(slug: string, ops: seq<Op>, k: RowKey, m: Mark)
    requires forall i :: 0 <= i < |ops| ==> CleanCall(ops[i])
    requires Unblemished(m)
    ensures Unblemished(MarkAll(slug, ops, k, m))
    decreases ops, 0
  {
    if ops != [] {
      CleanCallsUnblemished(slug, ops[0], k, m);
      CleanBodyUnblemished(slug, ops[1..], k, MarkOp(slug, true, ops[0], k, m));
    }
  }

  /** The mark of any address in a coherent state. */
  const Fresh := Mark(0, true, false, false, false)

  /**
    After a committed transaction of point calls every cached value is its row's new value,
    whatever the TTL of the operator that started it.
  */
  lemma CommittedTxCoherent(ns: iset<Namespace>, slug: string, body: seq<Op>, env: TxEnv, s: State)
    requires PrefixFree(ns) && ReadsWithin(ns, slug, Tx(body, env)) && Coherent(ns, s)
    requires CleanCall(Tx(body, env)) && TxSucceeds(false, env)
    ensures Coherent(ns, Exec(slug, false, Tx(body, env), s))
  {
    forall k: RowKey | NamespaceOf(k) in ns
      ensures !Stale(Exec(slug, false, Tx(body, env), s), k)
    {
      var start := Opened(false, s).(ttl := 0);
      assert !Stale(s, k);
      AllAccounted(ns, slug, body, k, start, Fresh);
      CleanBodyUnblemished(slug, body, k, Fresh);
    }
  }

  // ----- The cache after a failed transaction -----

  /** The callback wrote the address and then read it back into the cache, not cleaned since. */
  predicate LeavesPhantom(slug: string, body: seq<Op>, k: RowKey) {
    DiscardAll(slug, body, k, Unwritten(Fresh)).mark.phantom
  }

  predicate Reads(slug: string, op: Op, k: RowKey) {
    op.Get? && RowKey(slug, op.group, op.key) == k
  }

  ghost predicate WritesThenReads(slug: string, calls: seq<Op>, k: RowKey) {
    exists i, j :: 0 <= i < j < |calls| && Writes(slug, calls[i], k) && Reads(slug, calls[j], k)
  }

  lemma {:induction false} DiscardConcat(slug: string, a: seq<Op>, b: seq<Op>, k: RowKey, p: Pending)
    ensures DiscardAll(slug, a + b, k, p) == DiscardAll(slug, b, k, DiscardAll(slug, a, k, p))
    decreases |a|
  {
    if a == [] {
      assert a + b == b;
    } else {
      assert (a + b)[1..] == a[1..] + b;
      DiscardConcat(slug, a[1..], b, k, DiscardOp(slug, a[0], k, p));
    }
  }

  lemma {:induction false} DiscardFlattened(slug: string, ops: seq<Op>, k: RowKey, p: Pending)
    ensures DiscardAll(slug, ops, k, p) == DiscardAll(slug, Flatten(ops), k, p)
    decreases ops
  {
    if ops != [] {
      var head := FlattenOne(ops[0]);
      var q := DiscardOp(slug, ops[0], k, p);
      if ops[0].Tx? {
        DiscardFlattened(slug, ops[0].body, k, p);
      } else {
        assert [ops[0]][1..] == [];
      }
      assert DiscardAll(slug, head, k, p) == q;
      DiscardFlattened(slug, ops[1..], k, q);
      DiscardConcat(slug, head, Flatten(ops[1..]), k, p);
    }
  }

  lemma {:induction false} PhantomNeedsWriteThenRead(slug: string, calls: seq<Op>, k: RowKey, p: Pending)
    requires forall i :: 0 <= i < |calls| ==> !calls[i].Tx?
    requires !p.mark.phantom && DiscardAll(slug, calls, k, p).mark.phantom
    ensures WritesThenReads(slug, calls, k) || (p.written && exists j :: 0 <= j < |calls| && Reads(slug, calls[j], k))
    decreases |calls|
  {
    var p' := DiscardOp(slug, calls[0], k, p);
    if p'.mark.phantom {
      assert p.written && Reads(slug, calls[0], k);
    } else {
      var rest := calls[1..];
      PhantomNeedsWriteThenRead(slug, rest, k, p');
      if i, j :| 0 <= i < j < |rest| && Writes(slug, rest[i], k) && Reads(slug, rest[j], k) {
        assert Writes(slug, calls[i + 1], k) && Reads(slug, calls[j + 1], k);
      } else {
        var j :| 0 <= j < |rest| && Reads(slug, rest[j], k);
        assert Reads(slug, calls[j + 1], k);
        assert p.written || Writes(slug, calls[0], k);
      }
    }
  }

  lemma {:induction false} FlattenHasNoTx(ops: seq<Op>)
    ensures forall i :: 0 <= i < |Flatten(ops)| ==> !Flatten(ops)[i].Tx?
    decreases ops
  {
    if ops != [] {
      FlattenHasNoTx(ops[1..]);
      if ops[0].Tx? {
        FlattenHasNoTx(ops[0].body);
      }
      assert Flatten(ops) == FlattenOne(ops[0]) + Flatten(ops[1..]);
    }
  }

  /**
    After a failed transaction, wide deletes and failed statements included, a stale entry
    belongs to an address that the callback, at whatever nesting, set and later read.
  */
  lemma FailedTxStaleness(ns: iset<Namespace>, slug: string, body: seq<Op>, env: TxEnv, s: State, k: RowKey)
    requires PrefixFree(ns) && ReadsWithin(ns, slug, Tx(body, env)) && Coherent(ns, s)
    requires NamespaceOf(k) in ns && !TxSucceeds(false, env)
    requires Stale(Exec(slug, false, Tx(body, env), s), k)
    ensures env.beginOk && LeavesPhantom(slug, body, k) && WritesThenReads(slug, Flatten(body), k)
  {
    var start := Opened(false, s).(ttl := 0);
    assert !Stale(s, k);
    if env.beginOk {
      AllRestorable(ns, slug, body, k, start, s.table.rows, Unwritten(Fresh));
      DiscardOnlySpoils(slug, body, k, Unwritten(Fresh));
      DiscardFlattened(slug, body, k, Unwritten(Fresh));
      FlattenHasNoTx(body);
      PhantomNeedsWriteThenRead(slug, Flatten(body), k, Unwritten(Fresh));
    }
  }

  lemma {:induction false} DiscardOnlySpoils(slug: string, ops: seq<Op>, k: RowKey, p: Pending)
    requires !p.mark.wiped && !p.mark.skipped
    ensures var m := DiscardAll(slug, ops, k, p).mark; !m.wiped && !m.skipped
    decreases ops
  {
    if ops != [] {
      if ops[0].Tx? {
        DiscardOnlySpoils(slug, ops[0].body, k, p);
      }
      DiscardOnlySpoils(slug, ops[1..], k, DiscardOp(slug, ops[0], k, p));
    }
  }

  // ----- Exactly which callbacks are safe to fail -----

  /** Cache deletes work and the TTL stays non-negative; statements may fail, as may reads and writes of the cache. */
  predicate CleansWork(op: Op)
    decreases op
  {
    match op
    case SetTTL(ttl) => ttl >= 0
    case Tx(body, _) => forall i :: 0 <= i < |body| ==> CleansWork(body[i])
    case _ => CacheDeletesWork(op)
  }

  /** A write whose update statement succeeds. It inserts only if it finds no row, and that may fail. */
  predicate Updates(slug: string, op: Op, k: RowKey) {
    Writes(slug, op, k) && op.env.dbOk
  }

  predicate Inserts(slug: string, op: Op, k: RowKey) {
    Updates(slug, op, k) && op.env.insertOk
  }

  /** A read that, finding no entry and a row, caches the row's value. */
  predicate Caches(slug: string, op: Op, k: RowKey) {
    Reads(slug, op, k) && op.env.dbOk && op.env.cacheWriteOk
  }

  /** The call removes the entry of the address, or the entry expires. */
  predicate Drops(slug: string, op: Op, k: RowKey) {
    match op
    case Set(group, key, _, _) => key != "" && Render(RowKey(slug, group, key)) == Render(k)
    case Del(group, key, _) => (group != "" || key != "") && Render(RowKey(slug, group, key)) == Render(k)
    case Expire(entry) => entry == Render(k)
    case _ => false
  }

  /** The calls deleted the row, and none has inserted it since. */
  ghost predicate RowGone(slug: string, calls: seq<Op>, k: RowKey) {
    exists i :: 0 <= i < |calls| && Removes(slug, calls[i], k) &&
                forall m :: i < m < |calls| ==> !Inserts(slug, calls[m], k)
  }

  /** After the given calls this write succeeds, if the row was there before them. */
  ghost predicate Lands(slug: string, before: seq<Op>, op: Op, k: RowKey) {
    Updates(slug, op, k) && (op.env.insertOk || !RowGone(slug, before, k))
  }

  /** Some write of the address still stands at the end of the calls. */
  ghost predicate WriteStands(slug: string, calls: seq<Op>, k: RowKey) {
    exists i: nat :: WriteStandsAt(slug, calls, k, i)
  }

  ghost predicate WriteStandsAt(slug: string, calls: seq<Op>, k: RowKey, i: nat) {
    i < |calls| && Lands(slug, calls[..i], calls[i], k) && forall m :: i < m < |calls| ==> !Removes(slug, calls[m], k)
  }

  /** A read of the address saw one of the calls' own writes, and no later call dropped the entry. */
  ghost predicate ReadsBack(slug: string, calls: seq<Op>, k: RowKey) {
    exists j: nat :: ReadsBackAt(slug, calls, k, j)
  }

  /** The read that the pattern is about, by its position. */
  ghost predicate ReadsBackAt(slug: string, calls: seq<Op>, k: RowKey, j: nat) {
    j < |calls| && Caches(slug, calls[j], k) && WriteStands(slug, calls[..j], k) &&
    forall m :: j < m < |calls| ==> !Drops(slug, calls[m], k)
  }

  lemma RowGoneAppend(slug: string, calls: seq<Op>, op: Op, k: RowKey)
    ensures RowGone(slug, calls + [op], k) <==>
            Removes(slug, op, k) || (RowGone(slug, calls, k) && !Inserts(slug, op, k))
  {
    hide Removes, Inserts;
    var all := calls + [op];
    assert all[|calls|] == op && forall m :: 0 <= m < |calls| ==> all[m] == calls[m];
    if i :| 0 <= i < |calls| && Removes(slug, calls[i], k) &&
            forall m :: i < m < |calls| ==> !Inserts(slug, calls[m], k) {
      assert Removes(slug, all[i], k);
    }
    if RowGone(slug, all, k) && !Removes(slug, op, k) {
      var i :| 0 <= i < |all| && Removes(slug, all[i], k) &&
               forall m :: i < m < |all| ==> !Inserts(slug, all[m], k);
      assert Removes(slug, calls[i], k);
    }
  }

  lemma WriteStandsAtAppend(slug: string, calls: seq<Op>, op: Op, k: RowKey, i: nat)
    ensures WriteStandsAt(slug, calls + [op], k, i) <==>
            if i == |calls| then Lands(slug, calls, op, k)
            else WriteStandsAt(slug, calls, k, i) && !Removes(slug, op, k)
  {
    hide Lands, Removes;
    var all := calls + [op];
    if i <= |calls| {
      assert all[..i] == calls[..i];
      assert calls[..|calls|] == calls;
      assert forall m :: 0 <= m < |calls| ==> all[m] == calls[m];
      assert all[|calls|] == op;
    }
  }

  lemma WriteStandsAppend(slug: string, calls: seq<Op>, op: Op, k: RowKey)
    ensures WriteStands(slug, calls + [op], k) <==>
            Lands(slug, calls, op, k) || (WriteStands(slug, calls, k) && !Removes(slug, op, k))
  {
    hide Lands, Removes;
    forall i: nat
      ensures WriteStandsAt(slug, calls + [op], k, i) <==>
              if i == |calls| then Lands(slug, calls, op, k)
              else WriteStandsAt(slug, calls, k, i) && !Removes(slug, op, k)
    {
      WriteStandsAtAppend(slug, calls, op, k, i);
    }
    hide WriteStandsAt;
    assert WriteStandsAt(slug, calls + [op], k, |calls|) <==> Lands(slug, calls, op, k);
  }

  lemma ReadsBackAtAppend(slug: string, calls: seq<Op>, op: Op, k: RowKey, j: nat)
    ensures ReadsBackAt(slug, calls + [op], k, j) <==>
            if j == |calls| then Caches(slug, op, k) && WriteStands(slug, calls, k)
            else ReadsBackAt(slug, calls, k, j) && !Drops(slug, op, k)
  {
    hide WriteStands;
    var all := calls + [op];
    if j <= |calls| {
      assert all[..j] == calls[..j];
      assert calls[..|calls|] == calls;
      assert forall m :: 0 <= m < |calls| ==> all[m] == calls[m];
      assert all[|calls|] == op;
    }
  }

  lemma ReadsBackAppend(slug: string, calls: seq<Op>, op: Op, k: RowKey)
    ensures ReadsBack(slug, calls + [op], k) <==>
            (Caches(slug, op, k) && WriteStands(slug, calls, k)) || (ReadsBack(slug, calls, k) && !Drops(slug, op, k))
  {
    hide WriteStands;
    forall j: nat
      ensures ReadsBackAt(slug, calls + [op], k, j) <==>
              if j == |calls| then Caches(slug, op, k) && WriteStands(slug, calls, k)
              else ReadsBackAt(slug, calls, k, j) && !Drops(slug, op, k)
    {
      ReadsBackAtAppend(slug, calls, op, k, j);
    }
    assert ReadsBackAt(slug, calls + [op], k, |calls|) <==> Caches(slug, op, k) && WriteStands(slug, calls, k);
  }

  /** One call: a write that lands stands until a delete, and a read of it is phantom until the entry goes. */
  lemma CallMarks(slug: string, op: Op, k: RowKey, p: Pending)
    requires !op.Tx? && CleansWork(op) && p.mark.ttl >= 0 && (p.written ==> k.key != "")
    ensures var p' := DiscardOp(slug, op, k, p);
            && p'.mark.ttl >= 0 && (p'.written ==> k.key != "")
            && (p'.gone <==> Removes(slug, op, k) || (p.gone && !Inserts(slug, op, k)))
            && (p'.written <==>
                (Updates(slug, op, k) && (op.env.insertOk || !p.gone)) || (p.written && !Removes(slug, op, k)))
            && (p'.mark.phantom <==> (Caches(slug, op, k) && p.written) || (p.mark.phantom && !Drops(slug, op, k)))
  {
    hide Header;
  }

  /** Where cache deletes work, the mark is exactly the pattern of calls it stands for. */
  lemma {:induction false} MarkIsReadBack(slug: string, calls: seq<Op>, k: RowKey)
    requires forall i :: 0 <= i < |calls| ==> !calls[i].Tx? && CleansWork(calls[i])
    ensures var p := DiscardAll(slug, calls, k, Unwritten(Fresh));
            && p.mark.ttl >= 0 && (p.written ==> k.key != "")
            && (p.gone <==> RowGone(slug, calls, k))
            && (p.written <==> WriteStands(slug, calls, k))
            && (p.mark.phantom <==> ReadsBack(slug, calls, k))
    decreases |calls|
  {
    if calls != [] {
      var before, last := calls[..|calls| - 1], calls[|calls| - 1];
      assert calls == before + [last];
      assert [last][1..] == [];
      MarkIsReadBack(slug, before, k);
      DiscardConcat(slug, before, [last], k, Unwritten(Fresh));
      RowGoneAppend(slug, before, last, k);
      WriteStandsAppend(slug, before, last, k);
      ReadsBackAppend(slug, before, last, k);
      hide RowGone, WriteStands, ReadsBack, DiscardOp, CleansWork;
      CallMarks(slug, last, k, DiscardAll(slug, before, k, Unwritten(Fresh)));
    }
  }

  lemma {:induction false} FlattenCleansWork(ops: seq<Op>)
    requires forall i :: 0 <= i < |ops| ==> CleansWork(ops[i])
    ensures forall i :: 0 <= i < |Flatten(ops)| ==> CleansWork(Flatten(ops)[i])
    decreases ops
  {
    if ops != [] {
      FlattenCleansWork(ops[1..]);
      if ops[0].Tx? {
        FlattenCleansWork(ops[0].body);
      }
      assert Flatten(ops) == FlattenOne(ops[0]) + Flatten(ops[1..]);
    }
  }

  /** A bound on the length of every value that the calls set. */
  function Longest(op: Op): nat
    decreases op, 1
  {
    match op
    case Set(_, _, value, _) => |value|
    case Tx(body, _) => LongestOf(body)
    case _ => 0
  }

  function LongestOf(ops: seq<Op>): nat
    decreases ops, 0
  {
    if ops == [] then 0
    else
      var head, rest := Longest(ops[0]), LongestOf(ops[1..]);
      if head < rest then rest else head
  }

  /**
    Run from a row longer than any value to come: what the mark calls written is a shorter
    value in the row, and what it calls phantom is a shorter value in the cache.
  */
  predicate Witnessed(s: State, k: RowKey, n: nat, p: Pending) {
    var row := Lookup(s.table.rows, k);
    && s.ttl == p.mark.ttl >= 0
    && (p.gone <==> row == None)
    && (p.written ==> row.Some? && |row.value| < n && k.key != "")
    && (p.written && Render(k) in s.cache ==> |s.cache[Render(k)]| < n)
    && (p.mark.phantom ==> Render(k) in s.cache && |s.cache[Render(k)]| < n && (p.written || p.gone))
  }

  lemma GetWitnessed(ns: iset<Namespace>, slug: string, op: Op, k: RowKey, s: State, n: nat, p: Pending)
    requires PrefixFree(ns) && NamespaceOf(k) in ns && op.Get? && ReadsWithin(ns, slug, op) && Witnessed(s, k, n, p)
    ensures Witnessed(Exec(slug, true, op, s), k, n, DiscardOp(slug, op, k, p))
  {
    hide Header, Lookup;
    var target := RowKey(slug, op.group, op.key);
    if Render(target) == Render(k) {
      RenderInjective(ns, target, k);
    }
  }

  lemma SetWitnessed(slug: string, op: Op, k: RowKey, s: State, n: nat, p: Pending)
    requires op.Set? && CleansWork(op) && Longest(op) < n && Witnessed(s, k, n, p)
    ensures Witnessed(Exec(slug, true, op, s), k, n, DiscardOp(slug, op, k, p))
  {
    hide Header, Lookup, Upserted;
    LookupUpserted(s.table, RowKey(slug, op.group, op.key), op.value, k);
    AffectedIffPresent(s.table.rows, RowKey(slug, op.group, op.key));
  }

  lemma DelWitnessed(slug: string, op: Op, k: RowKey, s: State, n: nat, p: Pending)
    requires op.Del? && CleansWork(op) && Witnessed(s, k, n, p)
    ensures Witnessed(Exec(slug, true, op, s), k, n, DiscardOp(slug, op, k, p))
  {
    hide Header, Lookup, Removed;
    LookupRemoved(s.table.rows, Filter(slug, op.group, op.key), k);
  }

  lemma {:induction false} CallsWitnessed(
    ns: iset<Namespace>, slug: string, ops: seq<Op>, k: RowKey, s: State, n: nat, p: Pending)
    requires PrefixFree(ns) && NamespaceOf(k) in ns && Witnessed(s, k, n, p) && LongestOf(ops) < n
    requires forall i :: 0 <= i < |ops| ==> ReadsWithin(ns, slug, ops[i]) && CleansWork(ops[i])
    ensures Witnessed(ExecAll(slug, true, ops, s), k, n, DiscardAll(slug, ops, k, p))
    decreases ops
  {
    if ops != [] {
      match ops[0] {
        case Get(_, _, _) => GetWitnessed(ns, slug, ops[0], k, s, n, p);
        case Set(_, _, _, _) => SetWitnessed(slug, ops[0], k, s, n, p);
        case Del(_, _, _) => DelWitnessed(slug, ops[0], k, s, n, p);
        case Tx(body, _) => CallsWitnessed(ns, slug, body, k, s, n, p);
        case _ =>
      }
      CallsWitnessed(ns, slug, ops[1..], k, Exec(slug, true, ops[0], s), n, DiscardOp(slug, ops[0], k, p));
    }
  }

  ghost predicate KeepsCoherence(ns: iset<Namespace>, slug: string, op: Op) {
    forall s :: Coherent(ns, s) ==> Coherent(ns, Exec(slug, false, op, s))
  }

  /** The failing start has the row, with a value that the callback sets nowhere. */
  lemma PhantomFails(ns: iset<Namespace>, slug: string, body: seq<Op>, env: TxEnv, k: RowKey)
    requires PrefixFree(ns) && ReadsWithin(ns, slug, Tx(body, env)) && CleansWork(Tx(body, env)) && NamespaceOf(k) in ns
    requires env.beginOk && !TxSucceeds(false, env) && LeavesPhantom(slug, body, k)
    ensures !KeepsCoherence(ns, slug, Tx(body, env))
  {
    var n := LongestOf(body) + 1;
    var v := seq(n, _ => 'x');
    var s := State(Table([Row(0, k, v)], 1), map[], 0, 0, 0);
    assert Lookup(s.table.rows, k) == Some(v);
    CallsWitnessed(ns, slug, body, k, Opened(false, s).(ttl := 0), n, Unwritten(Fresh));
    var after := Exec(slug, false, Tx(body, env), s);
    assert Stale(after, k);
    assert Coherent(ns, s) && !Coherent(ns, after);
  }

  /**
    Where cache deletes work, a callback can fail from every coherent state without leaving a
    stale entry iff it reads back none of the addresses it has set, whichever of its
    statements and other cache accesses fail and whatever expires.
  */
  lemma FailedTxSafeIff(ns: iset<Namespace>, slug: string, body: seq<Op>, env: TxEnv)
    requires PrefixFree(ns) && ReadsWithin(ns, slug, Tx(body, env)) && CleansWork(Tx(body, env))
    requires env.beginOk && !TxSucceeds(false, env)
    ensures KeepsCoherence(ns, slug, Tx(body, env)) <==>
            forall k: RowKey :: NamespaceOf(k) in ns ==> !ReadsBack(slug, Flatten(body), k)
  {
    FlattenHasNoTx(body);
    FlattenCleansWork(body);
    forall k: RowKey
      ensures LeavesPhantom(slug, body, k) <==> ReadsBack(slug, Flatten(body), k)
    {
      DiscardFlattened(slug, body, k, Unwritten(Fresh));
      MarkIsReadBack(slug, Flatten(body), k);
    }
    if k: RowKey :| NamespaceOf(k) in ns && LeavesPhantom(slug, body, k) {
      PhantomFails(ns, slug, body, env, k);
    } else {
      forall s, k: RowKey | Coherent(ns, s) && NamespaceOf(k) in ns
        ensures !Stale(Exec(slug, false, Tx(body, env), s), k)
      {
        if Stale(Exec(slug, false, Tx(body, env), s), k) {
          FailedTxStaleness(ns, slug, body, env, s, k);
        }
      }
    }
  }

  // ----- Whole runs -----

  /** A transaction that leaves no stale entry: it commits point calls, or fails without reading back what it set. */
  ghost predicate SafeTx(ns: iset<Namespace>, slug: string, body: seq<Op>, env: TxEnv) {
    if !env.beginOk then true
    else if TxSucceeds(false, env) then CleanCall(Tx(body, env))
    else CleansWork(Tx(body, env)) && forall k: RowKey :: NamespaceOf(k) in ns ==> !ReadsBack(slug, Flatten(body), k)
  }

  /** Point calls of plugins that keep the sign of their TTL, and safe transactions of those that do not bypass the cache. */
  ghost predicate Behaves(ns: iset<Namespace>, bypass: iset<string>, e: Event) {
    && ReadsWithin(ns, e.slug, e.op)
    && match e.op
       case Tx(body, env) => e.slug !in bypass && SafeTx(ns, e.slug, body, env)
       case _ => Disciplined(bypass, e)
  }

  /** A call adds no entry for another plugin's address, and none under a negative TTL. */
  lemma {:induction false} NewEntryIsOwn(ns: iset<Namespace>, slug: string, inTx: bool, op: Op, s: State, k: RowKey)
    requires PrefixFree(ns) && NamespaceOf(k) in ns && ReadsWithin(ns, slug, op)
    requires Render(k) in Exec(slug, inTx, op, s).cache && Render(k) !in s.cache
    ensures k.slug == slug && (op.Tx? || s.ttl >= 0)
    decreases op, 1
  {
    hide Header, Lookup, Upserted, Removed;
    match op
    case Get(group, key, _) => RenderInjective(ns, RowKey(slug, group, key), k);
    case Tx(body, env) => NewEntriesAreOwn(ns, slug, body, if inTx then s else Opened(false, s).(ttl := 0), k);
    case _ =>
  }

  lemma {:induction false} NewEntriesAreOwn(ns: iset<Namespace>, slug: string, ops: seq<Op>, s: State, k: RowKey)
    requires PrefixFree(ns) && NamespaceOf(k) in ns
    requires forall i :: 0 <= i < |ops| ==> ReadsWithin(ns, slug, ops[i])
    requires Render(k) in ExecAll(slug, true, ops, s).cache && Render(k) !in s.cache
    ensures k.slug == slug
    decreases ops, 0
  {
    var mid := Exec(slug, true, ops[0], s);
    if Render(k) in mid.cache {
      NewEntryIsOwn(ns, slug, true, ops[0], s, k);
    } else {
      NewEntriesAreOwn(ns, slug, ops[1..], mid, k);
    }
  }

  /** Entries are true, and there is none for a plugin that bypasses the cache. */
  ghost predicate Orderly(ns: iset<Namespace>, bypass: iset<string>, s: State) {
    forall k: RowKey :: NamespaceOf(k) in ns ==> !Stale(s, k) && (k.slug in bypass ==> Render(k) !in s.cache)
  }

  lemma PointCallKeepsTrue(ns: iset<Namespace>, bypass: iset<string>, e: Event, s: State, k: RowKey)
    requires PrefixFree(ns) && NamespaceOf(k) in ns && ReadsWithin(ns, e.slug, e.op) && Disciplined(bypass, e)
    requires !Stale(s, k) && (k.slug in bypass ==> Render(k) !in s.cache)
    ensures !Stale(ExecEvent(e, s), k)
  {
    var start := s.(ttl := e.ttl);
    match e.op
    case Get(group, key, env) =>
      StaleAfterGet(e.slug, false, group, key, env, start, k);
      if Render(RowKey(e.slug, group, key)) == Render(k) {
        RenderInjective(ns, RowKey(e.slug, group, key), k);
      }
    case Set(group, key, value, env) =>
      if key != "" {
        StaleAfterSet(e.slug, false, group, key, value, env, start, k);
      }
    case Del(group, key, env) => StaleAfterDel(e.slug, false, group, key, env, start, k);
    case _ =>
  }

  lemma SafeTxKeepsCoherence(ns: iset<Namespace>, slug: string, body: seq<Op>, env: TxEnv, s: State)
    requires PrefixFree(ns) && ReadsWithin(ns, slug, Tx(body, env)) && SafeTx(ns, slug, body, env) && Coherent(ns, s)
    ensures Coherent(ns, Exec(slug, false, Tx(body, env), s))
  {
    if !env.beginOk {
      assert forall k: RowKey :: Stale(Exec(slug, false, Tx(body, env), s), k) == Stale(s, k);
    } else if TxSucceeds(false, env) {
      CommittedTxCoherent(ns, slug, body, env, s);
    } else {
      FailedTxSafeIff(ns, slug, body, env);
    }
  }

  lemma EventKeepsOrder(ns: iset<Namespace>, bypass: iset<string>, e: Event, s: State)
    requires PrefixFree(ns) && Behaves(ns, bypass, e) && Orderly(ns, bypass, s)
    ensures Orderly(ns, bypass, ExecEvent(e, s))
  {
    var start := s.(ttl := e.ttl);
    if e.op.Tx? {
      assert forall k: RowKey :: Stale(start, k) == Stale(s, k);
      SafeTxKeepsCoherence(ns, e.slug, e.op.body, e.op.txEnv, start);
    }
    forall k: RowKey | NamespaceOf(k) in ns
      ensures !Stale(ExecEvent(e, s), k) && (k.slug in bypass ==> Render(k) !in ExecEvent(e, s).cache)
    {
      if !e.op.Tx? {
        PointCallKeepsTrue(ns, bypass, e, s, k);
      }
      if Render(k) in ExecEvent(e, s).cache && Render(k) !in s.cache {
        NewEntryIsOwn(ns, e.slug, false, e.op, start, k);
      }
    }
  }

  /**
    After every run of point calls and transactions, nested ones, failing ones, expiry and
    failed statements included, every cached value is its row's value.
  */
  lemma {:induction false} RunsCoherent(ns: iset<Namespace>, bypass: iset<string>, es: seq<Event>, s: State)
    requires PrefixFree(ns) && s.cache == map[]
    requires forall i :: 0 <= i < |es| ==> Behaves(ns, bypass, es[i])
    ensures Orderly(ns, bypass, Run(es, s)) && Coherent(ns, Run(es, s))
  {
    hide Behaves, ExecEvent;
    if es != [] {
      RunsCoherent(ns, bypass, es[..|es| - 1], s);
      EventKeepsOrder(ns, bypass, es[|es| - 1], Run(es[..|es| - 1], s));
    }
  }

  /** A transaction caches for an operator that bypasses the cache, whose next write then goes stale. */
  lemma BypassingOperatorTxGoesStale(slug: string, group: string, key: string, v: string, w: string)
    requires key != "" && v != w
    ensures var ok := TxEnv(true, true, true);
            var es := [Event(slug, -1, Tx([Set(group, key, v, AllOk), Get(group, key, AllOk)], ok)),
                       Event(slug, -1, Set(group, key, w, AllOk))];
            Stale(Run(es, Empty), RowKey(slug, group, key))
  {
    var k := RowKey(slug, group, key);
    var ok := TxEnv(true, true, true);
    var write, read := Set(group, key, v, AllOk), Get(group, key, AllOk);
    var e1, e2 := Event(slug, -1, Tx([write, read], ok)), Event(slug, -1, Set(group, key, w, AllOk));
    var s0 := Opened(false, Empty.(ttl := -1)).(ttl := 0);
    assert [write, read][1..] == [read] && [read][1..] == [];
    assert ExecAll(slug, true, [write, read], s0) == ExecAll(slug, true, [read], Exec(slug, true, write, s0));
    LookupUpserted(s0.table, k, v, k);
    var s1 := ExecEvent(e1, Empty);
    var wrote := Exec(slug, true, write, s0);
    assert Render(k) !in wrote.cache && Lookup(wrote.table.rows, k) == Some(v);
    var readBack := Exec(slug, true, read, wrote);
    assert readBack.cache == map[Render(k) := v];
    assert ExecAll(slug, true, [read], wrote) == readBack;
    assert Render(k) in s1.cache && s1.cache[Render(k)] == v;
    RunAppend([], e1, Empty);
    RunAppend([e1], e2, Empty);
    assert [] + [e1] == [e1] && [e1] + [e2] == [e1, e2];
    LookupUpserted(s1.table, k, w, k);
  }
}
