/**
  What a stale entry says about the calls before it. A run is laid out as the sequence of its
  single calls, those of transactions included, each with the state in which it was made, and
  every stale entry is traced to the read that filled it and to what happened to the row.
*/
module History {
  import opened Common
  import opened KVTable
  import opened CacheKey
  import opened KVSemantics
  import opened Staleness
  import opened Coherence
  import opened Transactions

  /**
    One call as it was made: the event it belongs to, whether its writes were kept (only those
    of a failed transaction are not), and the state before it, as its own session saw it.
  */
  datatype Call = Call(slug: string, op: Op, event: nat, kept: bool, before: State)

  function CallsOf(slug: string, ops: seq<Op>, event: nat, kept: bool, s: State): seq<Call>
    decreases |ops|
  {
    if ops == [] then []
    else [Call(slug, ops[0], event, kept, s)] + CallsOf(slug, ops[1..], event, kept, Exec(slug, true, ops[0], s))
  }

  /** A transaction's operator starts with TTL 0; one that does not begin makes no calls. */
  function CallsIn(e: Event, event: nat, s: State): seq<Call> {
    match e.op
    case Tx(body, env) =>
      if !env.beginOk then []
      else CallsOf(e.slug, Flatten(body), event, TxSucceeds(false, env), Opened(false, s).(ttl := 0))
    case _ => [Call(e.slug, e.op, event, true, s.(ttl := e.ttl))]
  }

  function CallsMade(es: seq<Event>, s: State): seq<Call> {
    if es == [] then []
    else CallsMade(es[..|es| - 1], s) + CallsIn(es[|es| - 1], |es| - 1, Run(es[..|es| - 1], s))
  }

  // ----- What a call does to one address -----

  function RowAt(c: Call, k: RowKey): Option<string> {
    Lookup(c.before.table.rows, k)
  }

  /** The call puts the row's value, which it finds to be v, in the cache. */
  predicate FillsWith(c: Call, k: RowKey, v: string) {
    Reads(c.slug, c.op, k) && FillsEntry(k, c.op.env, c.before) && RowAt(c, k) == Some(v)
  }

  /** The entry expires, or the call cleans it. */
  predicate Clears(c: Call, k: RowKey) {
    Drops(c.slug, c.op, k) && (c.op.Expire? || CleansEntry(c.op.env, c.before))
  }

  /** A write of the address that succeeds. */
  predicate Sets(c: Call, k: RowKey) {
    Updates(c.slug, c.op, k) && (RowAt(c, k).Some? || c.op.env.insertOk)
  }

  predicate Takes(c: Call, k: RowKey) {
    Removes(c.slug, c.op, k)
  }

  /** The read at this position filled the entry with v, and no call since cleared it. */
  ghost predicate FilledAt(cs: seq<Call>, k: RowKey, v: string, r: nat) {
    r < |cs| && FillsWith(cs[r], k, v) && forall q :: r < q < |cs| ==> !Clears(cs[q], k)
  }

  /** Since then a write of another value was kept that did not clean the entry. */
  ghost predicate WrittenSince(cs: seq<Call>, k: RowKey, v: string, r: nat) {
    exists q :: r < q < |cs| && cs[q].kept && Sets(cs[q], k) && cs[q].op.value != v &&
                !CleansEntry(cs[q].op.env, cs[q].before)
  }

  /** Since then a delete was kept that took the row with this value, and cleaned another entry or none. */
  ghost predicate RemovedSince(cs: seq<Call>, k: RowKey, v: string, r: nat) {
    exists q :: r < q < |cs| && cs[q].kept && Takes(cs[q], k) && RowAt(cs[q], k) == Some(v) &&
                (!CleansEntry(cs[q].op.env, cs[q].before) || RowKey(cs[q].slug, cs[q].op.group, cs[q].op.key) != k)
  }

  /** After the first n calls the row holds v because this event set it. */
  ghost predicate SetStands(cs: seq<Call>, k: RowKey, v: string, n: nat, event: nat)
    requires n <= |cs|
  {
    exists w :: 0 <= w < n && cs[w].event == event && Sets(cs[w], k) && cs[w].op.value == v &&
                forall m :: w < m < n ==> !Sets(cs[m], k) && !Takes(cs[m], k)
  }

  /** The read was made in a transaction that failed, while a write of that transaction stood. */
  ghost predicate ReadBackLost(cs: seq<Call>, k: RowKey, v: string, r: nat) {
    r < |cs| && !cs[r].kept && SetStands(cs, k, v, r, cs[r].event)
  }

  /** Why an entry filled with v by this read may differ from its row. */
  ghost predicate Cause(cs: seq<Call>, k: RowKey, v: string, row: Option<string>, r: nat) {
    || ReadBackLost(cs, k, v, r)
    || WrittenSince(cs, k, v, r)
    || (RemovedSince(cs, k, v, r) && row == None)
  }

  ghost predicate Explains(cs: seq<Call>, k: RowKey, v: string, row: Option<string>, r: nat) {
    FilledAt(cs, k, v, r) && (row == Some(v) || Cause(cs, k, v, row, r))
  }

  /** The entry, if there is one, is explained against this row. */
  ghost predicate Told(cs: seq<Call>, k: RowKey, s: State, row: Option<string>) {
    Render(k) in s.cache ==> exists r: nat :: Explains(cs, k, s.cache[Render(k)], row, r)
  }

  // ----- One call -----

  lemma CallRow(c: Call, inTx: bool, k: RowKey)
    requires !c.op.Tx?
    ensures Lookup(Exec(c.slug, inTx, c.op, c.before).table.rows, k) ==
            if Sets(c, k) then Some(c.op.value) else if Takes(c, k) then None else RowAt(c, k)
  {
    hide Header, Lookup, Upserted, Removed;
    match c.op
    case Set(group, key, value, _) =>
      LookupUpserted(c.before.table, RowKey(c.slug, group, key), value, k);
      AffectedIffPresent(c.before.table.rows, RowKey(c.slug, group, key));
    case Del(group, key, _) => LookupRemoved(c.before.table.rows, Filter(c.slug, group, key), k);
    case _ =>
  }

  /** An entry after the call was filled by it, or was there before and not cleared. */
  lemma CallEntry(ns: iset<Namespace>, c: Call, inTx: bool, k: RowKey)
    requires PrefixFree(ns) && NamespaceOf(k) in ns && !c.op.Tx? && ReadsWithin(ns, c.slug, c.op)
    requires Render(k) in Exec(c.slug, inTx, c.op, c.before).cache
    ensures var v := Exec(c.slug, inTx, c.op, c.before).cache[Render(k)];
            || FillsWith(c, k, v)
            || (Render(k) in c.before.cache && c.before.cache[Render(k)] == v && !Clears(c, k))
  {
    hide Header, Lookup, Upserted, Removed;
    if c.op.Get? {
      var target := RowKey(c.slug, c.op.group, c.op.key);
      if Render(target) == Render(k) {
        RenderInjective(ns, target, k);
      }
    }
  }

  lemma FilledNext(cs: seq<Call>, c: Call, k: RowKey, v: string, r: nat)
    requires FilledAt(cs, k, v, r) && !Clears(c, k)
    ensures FilledAt(cs + [c], k, v, r)
    ensures ReadBackLost(cs, k, v, r) ==> ReadBackLost(cs + [c], k, v, r)
    ensures WrittenSince(cs, k, v, r) || (c.kept && Sets(c, k) && c.op.value != v) ==> WrittenSince(cs + [c], k, v, r)
    ensures RemovedSince(cs, k, v, r) || (c.kept && Takes(c, k) && RowAt(c, k) == Some(v)) ==>
              RemovedSince(cs + [c], k, v, r)
  {
    hide Header, Lookup;
    var all := cs + [c];
    assert all[|cs|] == c && forall q :: 0 <= q < |cs| ==> all[q] == cs[q];
  }

  lemma FilledNow(cs: seq<Call>, c: Call, k: RowKey, v: string)
    requires FillsWith(c, k, v)
    ensures FilledAt(cs + [c], k, v, |cs|)
    ensures !c.kept && SetStands(cs, k, v, |cs|, c.event) ==> ReadBackLost(cs + [c], k, v, |cs|)
  {
    hide FillsWith, Sets, Takes, Clears;
    var all := cs + [c];
    assert all[|cs|] == c && forall q :: 0 <= q < |cs| ==> all[q] == cs[q];
  }

  /** A call whose writes are kept explains its entry against the row it leaves. */
  lemma KeptCallTold(ns: iset<Namespace>, cs: seq<Call>, c: Call, inTx: bool, k: RowKey)
    requires PrefixFree(ns) && NamespaceOf(k) in ns && !c.op.Tx? && ReadsWithin(ns, c.slug, c.op)
    requires c.kept && Told(cs, k, c.before, RowAt(c, k))
    ensures var after := Exec(c.slug, inTx, c.op, c.before); Told(cs + [c], k, after, Lookup(after.table.rows, k))
  {
    var after := Exec(c.slug, inTx, c.op, c.before);
    var row := Lookup(after.table.rows, k);
    CallRow(c, inTx, k);
    if Render(k) in after.cache {
      var v := after.cache[Render(k)];
      CallEntry(ns, c, inTx, k);
      hide FilledAt, ReadBackLost, WrittenSince, RemovedSince, Exec, Lookup, Clears, Render;
      if FillsWith(c, k, v) {
        FilledNow(cs, c, k, v);
        assert Explains(cs + [c], k, v, row, |cs|);
      } else {
        var r: nat :| Explains(cs, k, v, RowAt(c, k), r);
        FilledNext(cs, c, k, v, r);
        assert Explains(cs + [c], k, v, row, r);
      }
    }
  }

  /** In a transaction to fail: the row is the one to be restored, or absent, or set by the transaction. */
  ghost predicate RowKnown(cs: seq<Call>, k: RowKey, now: Option<string>, row: Option<string>, event: nat) {
    now == row || now == None || SetStands(cs, k, now.value, |cs|, event)
  }

  lemma SetStandsNext(cs: seq<Call>, c: Call, k: RowKey, v: string)
    ensures SetStands(cs, k, v, |cs|, c.event) && !Sets(c, k) && !Takes(c, k) ==>
              SetStands(cs + [c], k, v, |cs| + 1, c.event)
    ensures Sets(c, k) && c.op.value == v ==> SetStands(cs + [c], k, v, |cs| + 1, c.event)
  {
    hide Sets, Takes;
    var all := cs + [c];
    assert all[|cs|] == c && forall q :: 0 <= q < |cs| ==> all[q] == cs[q];
  }

  /** A call whose writes are lost explains its entry against the row to be restored. */
  lemma LostCallTold(ns: iset<Namespace>, cs: seq<Call>, c: Call, k: RowKey, row: Option<string>)
    requires PrefixFree(ns) && NamespaceOf(k) in ns && !c.op.Tx? && ReadsWithin(ns, c.slug, c.op)
    requires !c.kept && Told(cs, k, c.before, row) && RowKnown(cs, k, RowAt(c, k), row, c.event)
    ensures var after := Exec(c.slug, true, c.op, c.before);
            Told(cs + [c], k, after, row) && RowKnown(cs + [c], k, Lookup(after.table.rows, k), row, c.event)
  {
    var after := Exec(c.slug, true, c.op, c.before);
    CallRow(c, true, k);
    var now := Lookup(after.table.rows, k);
    if now.Some? {
      SetStandsNext(cs, c, k, now.value);
    }
    if Render(k) in after.cache {
      var v := after.cache[Render(k)];
      CallEntry(ns, c, true, k);
      hide FilledAt, ReadBackLost, WrittenSince, RemovedSince, Exec, Lookup, Clears, Render, SetStands;
      if FillsWith(c, k, v) {
        FilledNow(cs, c, k, v);
        assert Explains(cs + [c], k, v, row, |cs|);
      } else {
        var r: nat :| Explains(cs, k, v, row, r);
        FilledNext(cs, c, k, v, r);
        assert Explains(cs + [c], k, v, row, r);
      }
    }
  }

  // ----- Transactions and runs -----

  lemma {:induction false} KeptCallsTold(
    ns: iset<Namespace>, cs: seq<Call>, slug: string, ops: seq<Op>, event: nat, k: RowKey, s: State)
    requires PrefixFree(ns) && NamespaceOf(k) in ns
    requires forall i :: 0 <= i < |ops| ==> !ops[i].Tx? && ReadsWithin(ns, slug, ops[i])
    requires Told(cs, k, s, Lookup(s.table.rows, k))
    ensures var after := ExecAll(slug, true, ops, s);
            Told(cs + CallsOf(slug, ops, event, true, s), k, after, Lookup(after.table.rows, k))
    decreases |ops|
  {
    hide Told, Exec, ReadsWithin, Lookup;
    if ops == [] {
      assert cs + [] == cs;
    } else {
      var c, mid := Call(slug, ops[0], event, true, s), Exec(slug, true, ops[0], s);
      KeptCallTold(ns, cs, c, true, k);
      KeptCallsTold(ns, cs + [c], slug, ops[1..], event, k, mid);
      assert cs + ([c] + CallsOf(slug, ops[1..], event, true, mid)) == (cs + [c]) + CallsOf(slug, ops[1..], event, true, mid);
    }
  }

  lemma {:induction false} LostCallsTold(
    ns: iset<Namespace>, cs: seq<Call>, slug: string, ops: seq<Op>, event: nat, k: RowKey, s: State, row: Option<string>)
    requires PrefixFree(ns) && NamespaceOf(k) in ns
    requires forall i :: 0 <= i < |ops| ==> !ops[i].Tx? && ReadsWithin(ns, slug, ops[i])
    requires Told(cs, k, s, row) && RowKnown(cs, k, Lookup(s.table.rows, k), row, event)
    ensures Told(cs + CallsOf(slug, ops, event, false, s), k, ExecAll(slug, true, ops, s), row)
    decreases |ops|
  {
    hide Told, RowKnown, Exec, ReadsWithin, Lookup;
    if ops == [] {
      assert cs + [] == cs;
    } else {
      var c, mid := Call(slug, ops[0], event, false, s), Exec(slug, true, ops[0], s);
      LostCallTold(ns, cs, c, k, row);
      LostCallsTold(ns, cs + [c], slug, ops[1..], event, k, mid, row);
      assert cs + ([c] + CallsOf(slug, ops[1..], event, false, mid)) == (cs + [c]) + CallsOf(slug, ops[1..], event, false, mid);
    }
  }

  lemma {:induction false} ExecConcat(slug: string, a: seq<Op>, b: seq<Op>, s: State)
    ensures ExecAll(slug, true, a + b, s) == ExecAll(slug, true, b, ExecAll(slug, true, a, s))
    decreases |a|
  {
    hide Exec;
    if a == [] {
      assert a + b == b;
    } else {
      assert (a + b)[1..] == a[1..] + b;
      ExecConcat(slug, a[1..], b, Exec(slug, true, a[0], s));
    }
  }

  /** The calls of a callback run as if its nested transactions were not there. */
  lemma {:induction false} ExecFlattened(slug: string, ops: seq<Op>, s: State)
    ensures ExecAll(slug, true, ops, s) == ExecAll(slug, true, Flatten(ops), s)
    decreases ops
  {
    if ops != [] {
      var head, mid := FlattenOne(ops[0]), Exec(slug, true, ops[0], s);
      if ops[0].Tx? {
        ExecFlattened(slug, ops[0].body, s);
      } else {
        assert [ops[0]][1..] == [];
      }
      assert ExecAll(slug, true, head, s) == mid;
      ExecFlattened(slug, ops[1..], mid);
      ExecConcat(slug, head, Flatten(ops[1..]), s);
    }
  }

  lemma {:induction false} FlattenReadsWithin(ns: iset<Namespace>, slug: string, ops: seq<Op>)
    requires forall i :: 0 <= i < |ops| ==> ReadsWithin(ns, slug, ops[i])
    ensures forall i :: 0 <= i < |Flatten(ops)| ==> ReadsWithin(ns, slug, Flatten(ops)[i])
    decreases ops
  {
    if ops != [] {
      FlattenReadsWithin(ns, slug, ops[1..]);
      if ops[0].Tx? {
        FlattenReadsWithin(ns, slug, ops[0].body);
      }
      assert Flatten(ops) == FlattenOne(ops[0]) + Flatten(ops[1..]);
    }
  }

  lemma TxTold(
    ns: iset<Namespace>, cs: seq<Call>, slug: string, body: seq<Op>, env: TxEnv, event: nat, k: RowKey, s: State)
    requires PrefixFree(ns) && NamespaceOf(k) in ns && ReadsWithin(ns, slug, Tx(body, env)) && env.beginOk
    requires Told(cs, k, s, Lookup(s.table.rows, k))
    ensures var after := Exec(slug, false, Tx(body, env), s);
            var made := CallsOf(slug, Flatten(body), event, TxSucceeds(false, env), Opened(false, s).(ttl := 0));
            Told(cs + made, k, after, Lookup(after.table.rows, k))
  {
    hide Explains, Lookup;
    var start := Opened(false, s).(ttl := 0);
    FlattenHasNoTx(body);
    FlattenReadsWithin(ns, slug, body);
    ExecFlattened(slug, body, start);
    if TxSucceeds(false, env) {
      KeptCallsTold(ns, cs, slug, Flatten(body), event, k, start);
    } else {
      LostCallsTold(ns, cs, slug, Flatten(body), event, k, start, Lookup(s.table.rows, k));
    }
  }

  lemma EventTold(ns: iset<Namespace>, cs: seq<Call>, e: Event, event: nat, k: RowKey, s: State)
    requires PrefixFree(ns) && NamespaceOf(k) in ns && ReadsWithin(ns, e.slug, e.op)
    requires Told(cs, k, s, Lookup(s.table.rows, k))
    ensures var after := ExecEvent(e, s); Told(cs + CallsIn(e, event, s), k, after, Lookup(after.table.rows, k))
  {
    hide Explains, Lookup;
    var start := s.(ttl := e.ttl);
    if !e.op.Tx? {
      KeptCallTold(ns, cs, Call(e.slug, e.op, event, true, start), false, k);
    } else if e.op.txEnv.beginOk {
      assert Opened(false, start).(ttl := 0) == Opened(false, s).(ttl := 0);
      TxTold(ns, cs, e.slug, e.op.body, e.op.txEnv, event, k, start);
    } else {
      assert cs + [] == cs;
    }
  }

  lemma {:induction false} RunTold(ns: iset<Namespace>, es: seq<Event>, k: RowKey, s: State)
    requires PrefixFree(ns) && NamespaceOf(k) in ns && AllReadWithin(ns, es) && s.cache == map[]
    ensures Told(CallsMade(es, s), k, Run(es, s), Lookup(Run(es, s).table.rows, k))
  {
    hide Explains, ExecEvent, CallsIn, Lookup;
    if es != [] {
      var before, n := es[..|es| - 1], |es| - 1;
      RunTold(ns, before, k, s);
      EventTold(ns, CallsMade(before, s), es[n], n, k, Run(before, s));
    }
  }

  /**
    Over every run of every plugin's calls, from an empty cache and any table, transactions
    and failures included: a stale value is one that a read found in the row and cached, and
    that nothing cleared since; and the read saw a write of its own failed transaction, or
    another value was written since without a clean, or it was deleted since without a clean, while
    it held that value, and is absent.
  */
  lemma StaleEntryHasCause(ns: iset<Namespace>, es: seq<Event>, k: RowKey, s: State)
    requires PrefixFree(ns) && NamespaceOf(k) in ns && AllReadWithin(ns, es) && s.cache == map[]
    requires Stale(Run(es, s), k)
    ensures var now, cs := Run(es, s), CallsMade(es, s);
            var v := now.cache[Render(k)];
            exists r: nat :: FilledAt(cs, k, v, r) && Cause(cs, k, v, Lookup(now.table.rows, k), r)
  {
    hide FilledAt, Cause, Run;
    RunTold(ns, es, k, s);
    var now, cs := Run(es, s), CallsMade(es, s);
    var r: nat :| Explains(cs, k, now.cache[Render(k)], Lookup(now.table.rows, k), r);
    assert Cause(cs, k, now.cache[Render(k)], Lookup(now.table.rows, k), r);
  }
}
