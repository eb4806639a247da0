/**
  When a cached value may differ from its row. A cached binding of an address is stale when
  the table does not hold that value there. For each address a run leaves a mark that says
  what could have made its entry stale; `StalenessIsAccounted` proves that nothing else can.
  `History` traces a stale entry to the calls themselves.
*/
module Staleness {
  import opened Common
  import opened KVTable
  import opened CacheKey
  import opened KVSemantics

  predicate Stale(s: State, k: RowKey) {
    Render(k) in s.cache && Lookup(s.table.rows, k) != Some(s.cache[Render(k)])
  }

  ghost predicate Coherent(ns: iset<Namespace>, s: State) {
    forall k: RowKey :: NamespaceOf(k) in ns ==> !Stale(s, k)
  }

  /** Every read in the call addresses one of the given namespaces; writes are free. */
  ghost predicate ReadsWithin(ns: iset<Namespace>, slug: string, op: Op)
    decreases op
  {
    match op
    case Get(group, _, _) => Namespace(slug, group) in ns
    case Tx(body, _) => forall i :: 0 <= i < |body| ==> ReadsWithin(ns, slug, body[i])
    case _ => true
  }

  ghost predicate AllReadWithin(ns: iset<Namespace>, es: seq<Event>) {
    forall i :: 0 <= i < |es| ==> ReadsWithin(ns, es[i].slug, es[i].op)
  }

  /**
    The mark of one address.
    - `touched`: a read may have put an entry in the cache since it was last removed.
    - `wiped`: a delete that did not clean this entry matched the row while touched. It may
      have named another entry, or it named this one and its clean was skipped or failed.
    - `skipped`: a write that skipped or failed its cache clean hit the row while touched.
    - `phantom`: a failed transaction wrote the row and then read it back into the cache.
    `ttl` is the TTL of the running operator.
  */
  datatype Mark = Mark(ttl: int, touched: bool, wiped: bool, skipped: bool, phantom: bool)

  const Unmarked := Mark(0, false, false, false, false)

  function Gone(m: Mark): Mark {
    Unmarked.(ttl := m.ttl)
  }

  function Cleaned(target: RowKey, env: Env, k: RowKey, m: Mark): Mark {
    if Render(target) == Render(k) && m.ttl >= 0 && env.cacheDelOk then Gone(m) else m
  }

  predicate Fills(target: RowKey, env: Env, k: RowKey, m: Mark) {
    target == k && k.key != "" && m.ttl >= 0 && env.dbOk && env.cacheWriteOk
  }

  /** The mark after a call whose table writes stand. */
  function MarkOp(slug: string, inTx: bool, op: Op, k: RowKey, m: Mark): Mark
    decreases op, 1
  {
    match op
    case Get(group, key, env) =>
      if Fills(RowKey(slug, group, key), env, k, m) then m.(touched := true) else m
    case Set(group, key, value, env) =>
      var target := RowKey(slug, group, key);
      if key == "" then m
      else
        var c := Cleaned(target, env, k, m);
        if target == k && env.dbOk then c.(skipped := c.skipped || c.touched) else c
    case Del(group, key, env) =>
      if key == "" && group == "" then m
      else
        var c := Cleaned(RowKey(slug, group, key), env, k, m);
        if Matches(Filter(slug, group, key), k) && env.dbOk then c.(wiped := c.wiped || c.touched) else c
    case GetByGroup(_, _, _, _) => m
    case SetTTL(ttl) => m.(ttl := ttl)
    case Expire(entry) => if entry == Render(k) then Gone(m) else m
    case Tx(body, env) =>
      if inTx then MarkAll(slug, body, k, m)
      else if !env.beginOk then m
      else if env.fnOk && env.commitOk then MarkAll(slug, body, k, m.(ttl := 0)).(ttl := m.ttl)
      else DiscardAll(slug, body, k, Unwritten(m.(ttl := 0))).mark.(ttl := m.ttl)
  }

  function MarkAll(slug: string, ops: seq<Op>, k: RowKey, m: Mark): Mark
    decreases ops, 0
  {
    if ops == [] then m else MarkAll(slug, ops[1..], k, MarkOp(slug, true, ops[0], k, m))
  }

  /**
    Inside a transaction that will fail: `written` says that the row may hold a value set in
    it, and `gone` that it was deleted in it and not set since.
  */
  datatype Pending = Pending(mark: Mark, written: bool, gone: bool)

  function Unwritten(m: Mark): Pending {
    Pending(m, false, false)
  }

  /** The mark after a call whose table writes will be discarded, while its cache effects stay. */
  function DiscardOp(slug: string, op: Op, k: RowKey, p: Pending): Pending
    decreases op, 1
  {
    match op
    case Get(group, key, env) =>
      if Fills(RowKey(slug, group, key), env, k, p.mark)
      then p.(mark := p.mark.(touched := true, phantom := p.mark.phantom || p.written))
      else p
    case Set(group, key, value, env) =>
      var target := RowKey(slug, group, key);
      if key == "" then p
      else
        var lands := target == k && env.dbOk && (env.insertOk || !p.gone);
        Pending(Cleaned(target, env, k, p.mark), p.written || lands, p.gone && !lands)
    case Del(group, key, env) =>
      if key == "" && group == "" then p
      else
        var removes := Matches(Filter(slug, group, key), k) && env.dbOk;
        Pending(Cleaned(RowKey(slug, group, key), env, k, p.mark), p.written && !removes, p.gone || removes)
    case GetByGroup(_, _, _, _) => p
    case SetTTL(ttl) => p.(mark := p.mark.(ttl := ttl))
    case Expire(entry) => if entry == Render(k) then p.(mark := Gone(p.mark)) else p
    case Tx(body, _) => DiscardAll(slug, body, k, p)
  }

  function DiscardAll(slug: string, ops: seq<Op>, k: RowKey, p: Pending): Pending
    decreases ops, 0
  {
    if ops == [] then p else DiscardAll(slug, ops[1..], k, DiscardOp(slug, ops[0], k, p))
  }

  function MarkRun(es: seq<Event>, k: RowKey): Mark {
    if es == [] then Unmarked
    else
      var e := es[|es| - 1];
      MarkOp(e.slug, false, e.op, k, MarkRun(es[..|es| - 1], k).(ttl := e.ttl))
  }

  /** A stale entry has one of the three causes; after uncleaned deletes alone, the row is absent. */
  predicate Explained(row: Option<string>, cached: string, m: Mark) {
    || row == Some(cached)
    || (row == None && m.wiped)
    || m.skipped
    || m.phantom
  }

  predicate Accounted(s: State, k: RowKey, m: Mark) {
    && s.ttl == m.ttl
    && (Render(k) in s.cache ==> m.touched && Explained(Lookup(s.table.rows, k), s.cache[Render(k)], m))
  }

  /** The same, inside a transaction that will restore the rows it started from. */
  predicate Restorable(s: State, start: seq<Row>, k: RowKey, p: Pending) {
    && s.ttl == p.mark.ttl
    && (Render(k) in s.cache ==> p.mark.touched && Explained(Lookup(start, k), s.cache[Render(k)], p.mark))
    && (p.written || Lookup(s.table.rows, k) == Lookup(start, k) || Lookup(s.table.rows, k) == None)
    && (p.gone ==> Lookup(s.table.rows, k) == None)
  }

  lemma GetAccounted(ns: iset<Namespace>, slug: string, inTx: bool, op: Op, k: RowKey, s: State, m: Mark)
    requires PrefixFree(ns) && NamespaceOf(k) in ns && op.Get? && ReadsWithin(ns, slug, op)
    requires Accounted(s, k, m)
    ensures Accounted(Exec(slug, inTx, op, s), k, MarkOp(slug, inTx, op, k, m))
  {
    hide Header, Lookup;
    var target := RowKey(slug, op.group, op.key);
    if Render(target) == Render(k) {
      RenderInjective(ns, target, k);
    }
  }

  lemma SetAccounted(slug: string, inTx: bool, op: Op, k: RowKey, s: State, m: Mark)
    requires op.Set? && Accounted(s, k, m)
    ensures Accounted(Exec(slug, inTx, op, s), k, MarkOp(slug, inTx, op, k, m))
  {
    hide Header, Lookup, Upserted;
    LookupUpserted(s.table, RowKey(slug, op.group, op.key), op.value, k);
  }

  lemma DelAccounted(slug: string, inTx: bool, op: Op, k: RowKey, s: State, m: Mark)
    requires op.Del? && Accounted(s, k, m)
    ensures Accounted(Exec(slug, inTx, op, s), k, MarkOp(slug, inTx, op, k, m))
  {
    hide Header, Lookup, Removed;
    LookupRemoved(s.table.rows, Filter(slug, op.group, op.key), k);
  }

  lemma {:induction false} OpAccounted(ns: iset<Namespace>, slug: string, inTx: bool, op: Op, k: RowKey, s: State, m: Mark)
    requires PrefixFree(ns) && NamespaceOf(k) in ns && ReadsWithin(ns, slug, op)
    requires Accounted(s, k, m)
    ensures Accounted(Exec(slug, inTx, op, s), k, MarkOp(slug, inTx, op, k, m))
    decreases op, 1
  {
    match op
    case Get(_, _, _) => GetAccounted(ns, slug, inTx, op, k, s, m);
    case Set(_, _, _, _) => SetAccounted(slug, inTx, op, k, s, m);
    case Del(_, _, _) => DelAccounted(slug, inTx, op, k, s, m);
    case Tx(body, env) =>
      var start := Opened(false, s).(ttl := 0);
      if inTx {
        AllAccounted(ns, slug, body, k, s, m);
      } else if env.beginOk && env.fnOk && env.commitOk {
        AllAccounted(ns, slug, body, k, start, m.(ttl := 0));
      } else if env.beginOk {
        AllRestorable(ns, slug, body, k, start, s.table.rows, Unwritten(m.(ttl := 0)));
      }
    case _ =>
  }

  lemma {:induction false} AllAccounted(ns: iset<Namespace>, slug: string, ops: seq<Op>, k: RowKey, s: State, m: Mark)
    requires PrefixFree(ns) && NamespaceOf(k) in ns
    requires forall i :: 0 <= i < |ops| ==> ReadsWithin(ns, slug, ops[i])
    requires Accounted(s, k, m)
    ensures Accounted(ExecAll(slug, true, ops, s), k, MarkAll(slug, ops, k, m))
    decreases ops, 0
  {
    if ops != [] {
      OpAccounted(ns, slug, true, ops[0], k, s, m);
      AllAccounted(ns, slug, ops[1..], k, Exec(slug, true, ops[0], s), MarkOp(slug, true, ops[0], k, m));
    }
  }

  lemma GetRestorable(ns: iset<Namespace>, slug: string, op: Op, k: RowKey, s: State, start: seq<Row>, p: Pending)
    requires PrefixFree(ns) && NamespaceOf(k) in ns && op.Get? && ReadsWithin(ns, slug, op)
    requires Restorable(s, start, k, p)
    ensures Restorable(Exec(slug, true, op, s), start, k, DiscardOp(slug, op, k, p))
  {
    var target := RowKey(slug, op.group, op.key);
    if Render(target) == Render(k) {
      RenderInjective(ns, target, k);
    }
  }

  lemma SetRestorable(slug: string, op: Op, k: RowKey, s: State, start: seq<Row>, p: Pending)
    requires op.Set? && Restorable(s, start, k, p)
    ensures Restorable(Exec(slug, true, op, s), start, k, DiscardOp(slug, op, k, p))
  {
    hide Header, Lookup, Upserted;
    LookupUpserted(s.table, RowKey(slug, op.group, op.key), op.value, k);
    AffectedIffPresent(s.table.rows, RowKey(slug, op.group, op.key));
  }

  lemma DelRestorable(slug: string, op: Op, k: RowKey, s: State, start: seq<Row>, p: Pending)
    requires op.Del? && Restorable(s, start, k, p)
    ensures Restorable(Exec(slug, true, op, s), start, k, DiscardOp(slug, op, k, p))
  {
    hide Header, Lookup, Removed;
    LookupRemoved(s.table.rows, Filter(slug, op.group, op.key), k);
  }

  lemma {:induction false} OpRestorable(
    ns: iset<Namespace>, slug: string, op: Op, k: RowKey, s: State, start: seq<Row>, p: Pending)
    requires PrefixFree(ns) && NamespaceOf(k) in ns && ReadsWithin(ns, slug, op)
    requires Restorable(s, start, k, p)
    ensures Restorable(Exec(slug, true, op, s), start, k, DiscardOp(slug, op, k, p))
    decreases op, 1
  {
    match op
    case Get(_, _, _) => GetRestorable(ns, slug, op, k, s, start, p);
    case Set(_, _, _, _) => SetRestorable(slug, op, k, s, start, p);
    case Del(_, _, _) => DelRestorable(slug, op, k, s, start, p);
    case Tx(body, _) => AllRestorable(ns, slug, body, k, s, start, p);
    case _ =>
  }

  lemma {:induction false} AllRestorable(
    ns: iset<Namespace>, slug: string, ops: seq<Op>, k: RowKey, s: State, start: seq<Row>, p: Pending)
    requires PrefixFree(ns) && NamespaceOf(k) in ns
    requires forall i :: 0 <= i < |ops| ==> ReadsWithin(ns, slug, ops[i])
    requires Restorable(s, start, k, p)
    ensures Restorable(ExecAll(slug, true, ops, s), start, k, DiscardAll(slug, ops, k, p))
    decreases ops, 0
  {
    if ops != [] {
      OpRestorable(ns, slug, ops[0], k, s, start, p);
      AllRestorable(ns, slug, ops[1..], k, Exec(slug, true, ops[0], s), start, DiscardOp(slug, ops[0], k, p));
    }
  }

  lemma {:induction false} RunAccounted(ns: iset<Namespace>, es: seq<Event>, k: RowKey, s: State)
    requires PrefixFree(ns) && NamespaceOf(k) in ns && AllReadWithin(ns, es)
    requires s.cache == map[]
    ensures Accounted(Run(es, s).(ttl := MarkRun(es, k).ttl), k, MarkRun(es, k))
  {
    if es != [] {
      var e, before := es[|es| - 1], es[..|es| - 1];
      RunAccounted(ns, before, k, s);
      OpAccounted(ns, e.slug, false, e.op, k, Run(before, s).(ttl := e.ttl), MarkRun(before, k).(ttl := e.ttl));
    }
  }

  /**
    Over every run of every plugin's calls, from an empty cache and any table: a stale entry
    was left by a delete that did not clean it, of a row that is still absent, by a write
    whose clean was skipped or failed, or by a failed transaction that wrote the row and read
    it back.
  */
  lemma StalenessIsAccounted(ns: iset<Namespace>, es: seq<Event>, k: RowKey, s: State)
    requires PrefixFree(ns) && NamespaceOf(k) in ns && AllReadWithin(ns, es)
    requires s.cache == map[]
    requires Stale(Run(es, s), k)
    ensures var m := MarkRun(es, k);
            m.skipped || m.phantom || (m.wiped && Lookup(Run(es, s).table.rows, k) == None)
  {
    RunAccounted(ns, es, k, s);
  }
}
