/**
  When the cache agrees with the table. The first half gives, call by call, exactly which
  entries become stale; the second half gives the runs after which none is.
*/
module Coherence {
  import opened Common
  import opened KVTable
  import opened CacheKey
  import opened KVSemantics
  import opened Staleness

  /** A call deletes its cache entry only with caching on and a cache that performs the delete. */
  predicate CleansEntry(env: Env, s: State) {
    s.ttl >= 0 && env.cacheDelOk
  }

  /**
    Exactly what a delete leaves stale: of the entries other than the one it cleans, those
    that were stale before and those whose rows its filter matches. The filter may match a
    whole group or a key in all groups, and still only one entry is cleaned.
  */
  lemma StaleAfterDel(slug: string, inTx: bool, group: string, key: string, env: Env, s: State, k: RowKey)
    requires key != "" || group != ""
    ensures var after := DelCall(slug, inTx, group, key, env, s).state;
            Stale(after, k) <==>
            && !(CleansEntry(env, s) && Render(k) == Render(RowKey(slug, group, key)))
            && (Stale(s, k) || (env.dbOk && Matches(Filter(slug, group, key), k) && Render(k) in s.cache))
  {
    LookupRemoved(s.table.rows, Filter(slug, group, key), k);
  }

  /** Exactly what a write leaves stale. */
  lemma StaleAfterSet(slug: string, inTx: bool, group: string, key: string, value: string, env: Env, s: State, k: RowKey)
    requires key != ""
    ensures var target := RowKey(slug, group, key);
            var after := SetCall(slug, inTx, group, key, value, env, s);
            Stale(after.state, k) <==>
            && !(CleansEntry(env, s) && Render(k) == Render(target))
            && if k == target && after.result.Success?
               then Render(k) in s.cache && s.cache[Render(k)] != value
               else Stale(s, k)
  {
    LookupUpserted(s.table, RowKey(slug, group, key), value, k);
  }

  /** The read stores the row's value in the cache. */
  predicate FillsEntry(k: RowKey, env: Env, s: State) {
    && k.key != "" && s.ttl >= 0 && CacheGet(k, env, s) == None
    && env.dbOk && env.cacheWriteOk && Lookup(s.table.rows, k).Some?
  }

  /** Exactly what a read leaves stale: what was stale, but for the entry it fills, which may be another address's too. */
  lemma StaleAfterGet(slug: string, inTx: bool, group: string, key: string, env: Env, s: State, k: RowKey)
    ensures var target := RowKey(slug, group, key);
            Stale(GetCall(slug, inTx, group, key, env, s).state, k) <==>
            if FillsEntry(target, env, s) && Render(k) == Render(target)
            then Lookup(s.table.rows, k) != Lookup(s.table.rows, target)
            else Stale(s, k)
  {
  }

  /** A delete keeps a coherent cache coherent iff it fails, or matches no cached address but one that it cleans. */
  lemma DelKeepsCoherenceIff(ns: iset<Namespace>, slug: string, inTx: bool, group: string, key: string, env: Env, s: State)
    requires PrefixFree(ns) && Namespace(slug, group) in ns && Coherent(ns, s)
    requires key != "" || group != ""
    ensures Coherent(ns, DelCall(slug, inTx, group, key, env, s).state) <==>
            || !env.dbOk
            || forall k: RowKey ::
                 NamespaceOf(k) in ns && Matches(Filter(slug, group, key), k)
                 && !(k == RowKey(slug, group, key) && CleansEntry(env, s))
                 ==> Render(k) !in s.cache
  {
    var target := RowKey(slug, group, key);
    forall k: RowKey | NamespaceOf(k) in ns
      ensures Stale(DelCall(slug, inTx, group, key, env, s).state, k) <==>
              env.dbOk && Matches(Filter(slug, group, key), k) && !(k == target && CleansEntry(env, s)) && Render(k) in s.cache
    {
      StaleAfterDel(slug, inTx, group, key, env, s, k);
      if Render(k) == Render(target) {
        RenderInjective(ns, k, target);
      }
    }
  }

  /** A write keeps a coherent cache coherent iff it cleans, fails, or leaves the cached value true. */
  lemma SetKeepsCoherenceIff(
    ns: iset<Namespace>, slug: string, inTx: bool, group: string, key: string, value: string, env: Env, s: State)
    requires PrefixFree(ns) && Namespace(slug, group) in ns && Coherent(ns, s) && key != ""
    ensures var target := RowKey(slug, group, key);
            Coherent(ns, SetCall(slug, inTx, group, key, value, env, s).state) <==>
            || CleansEntry(env, s)
            || !env.dbOk
            || (Lookup(s.table.rows, target) == None && !env.insertOk)
            || Render(target) !in s.cache
            || s.cache[Render(target)] == value
  {
    var target := RowKey(slug, group, key);
    assert NamespaceOf(target) in ns;
    forall k: RowKey | NamespaceOf(k) in ns
      ensures Stale(SetCall(slug, inTx, group, key, value, env, s).state, k) ==> k == target
    {
      StaleAfterSet(slug, inTx, group, key, value, env, s, k);
    }
    StaleAfterSet(slug, inTx, group, key, value, env, s, target);
    AffectedIffPresent(s.table.rows, target);
  }

  /** The read without a cache. */
  function TableRead(k: RowKey, s: State): Result<string, KVError> {
    match Lookup(s.table.rows, k)
    case None => Failure(NotFound)
    case Some(v) => Success(v)
  }

  /** A read that nothing disturbs answers as the table does iff the entry is not stale or caching is off. */
  lemma ReadIsTrueIff(slug: string, inTx: bool, group: string, key: string, env: Env, s: State)
    requires key != "" && env.cacheReadOk && env.dbOk
    ensures var k := RowKey(slug, group, key);
            GetCall(slug, inTx, group, key, env, s).result == TableRead(k, s) <==> s.ttl < 0 || !Stale(s, k)
  {
  }

  /** In a coherent state every read answers as the table does or reports a failed statement. */
  lemma CoherentReads(ns: iset<Namespace>, slug: string, inTx: bool, group: string, key: string, env: Env, s: State)
    requires Coherent(ns, s) && Namespace(slug, group) in ns && key != ""
    ensures var out := GetCall(slug, inTx, group, key, env, s);
            && (out.result == TableRead(RowKey(slug, group, key), s) || (!env.dbOk && out.result == Failure(Storage)))
            && out.state.table == s.table
  {
    assert NamespaceOf(RowKey(slug, group, key)) in ns;
  }

  /** Reads, writes, and deletes that name both a group and a key, outside transactions. */
  predicate PointOp(op: Op) {
    match op
    case Del(group, key, _) => group != "" && key != ""
    case Tx(_, _) => false
    case _ => true
  }

  predicate CacheDeletesWork(op: Op) {
    match op
    case Set(_, _, _, env) => env.cacheDelOk
    case Del(_, _, env) => env.cacheDelOk
    case _ => true
  }

  /** A plugin either always bypasses the cache or never does, and cache deletes work. */
  ghost predicate Disciplined(bypass: iset<string>, e: Event) {
    && PointOp(e.op)
    && CacheDeletesWork(e.op)
    && (e.ttl < 0 <==> e.slug in bypass)
  }

  ghost predicate DisciplinedRun(bypass: iset<string>, es: seq<Event>) {
    forall i :: 0 <= i < |es| ==> Disciplined(bypass, es[i])
  }

  lemma {:induction false} DisciplinedRunUnmarked(bypass: iset<string>, es: seq<Event>, k: RowKey)
    requires DisciplinedRun(bypass, es)
    ensures var m := MarkRun(es, k);
            !m.skipped && !m.phantom && !m.wiped && (k.slug in bypass ==> !m.touched)
  {
    if es != [] {
      DisciplinedRunUnmarked(bypass, es[..|es| - 1], k);
      assert Disciplined(bypass, es[|es| - 1]);
    }
  }

  /**
    After any run of point calls by any plugins, with arbitrary expiry, failed cache writes
    and failed statements, every cached value is its row's value.
  */
  lemma PointRunsCoherent(ns: iset<Namespace>, bypass: iset<string>, es: seq<Event>, s: State)
    requires PrefixFree(ns) && AllReadWithin(ns, es) && DisciplinedRun(bypass, es)
    requires s.cache == map[]
    ensures Coherent(ns, Run(es, s))
  {
    forall k: RowKey | NamespaceOf(k) in ns
      ensures !Stale(Run(es, s), k)
    {
      DisciplinedRunUnmarked(bypass, es, k);
      if Stale(Run(es, s), k) {
        StalenessIsAccounted(ns, es, k, s);
      }
    }
  }

  predicate Writes(slug: string, op: Op, k: RowKey) {
    op.Set? && op.key != "" && RowKey(slug, op.group, op.key) == k
  }

  predicate Deletes(slug: string, op: Op, k: RowKey) {
    op.Del? && (op.group != "" || op.key != "") && Matches(Filter(slug, op.group, op.key), k)
  }

  /** The call removes this address's cache entry. */
  predicate Cleans(slug: string, op: Op, k: RowKey) {
    Writes(slug, op, k) || (op.Del? && (op.group != "" || op.key != "") && RowKey(slug, op.group, op.key) == k)
  }

  /** Deletes of any width, no transactions. */
  ghost predicate DisciplinedButWide(bypass: iset<string>, e: Event) {
    !e.op.Tx? && CacheDeletesWork(e.op) && (e.ttl < 0 <==> e.slug in bypass)
  }

  /** A delete that matches the address and whose statement succeeds. */
  predicate Removes(slug: string, op: Op, k: RowKey) {
    Deletes(slug, op, k) && op.env.dbOk
  }

  /** At this call a delete took away the row while it held the value, and no call since cleans its entry. */
  ghost predicate WipedAt(es: seq<Event>, s: State, k: RowKey, v: string, i: nat) {
    && i < |es|
    && Lookup(Run(es[..i], s).table.rows, k) == Some(v)
    && Removes(es[i].slug, es[i].op, k)
    && forall m :: i <= m < |es| ==> !Cleans(es[m].slug, es[m].op, k)
  }

  ghost predicate WipedSince(es: seq<Event>, s: State, k: RowKey, v: string) {
    exists i: nat :: WipedAt(es, s, k, v, i)
  }

  lemma WipedSinceAppend(es: seq<Event>, s: State, e: Event, k: RowKey, v: string)
    requires !Cleans(e.slug, e.op, k)
    requires WipedSince(es, s, k, v) || (Lookup(Run(es, s).table.rows, k) == Some(v) && Removes(e.slug, e.op, k))
    ensures WipedSince(es + [e], s, k, v)
  {
    var all := es + [e];
    if i: nat :| WipedAt(es, s, k, v, i) {
      assert all[..i] == es[..i];
      assert WipedAt(all, s, k, v, i);
    } else {
      assert all[..|es|] == es;
      assert WipedAt(all, s, k, v, |es|);
    }
  }

  /** A bypassing plugin has no entry; another's entry is true, or absent rows were removed under it. */
  ghost predicate TrueOrWiped(bypass: iset<string>, es: seq<Event>, s: State, k: RowKey) {
    var now := Run(es, s);
    Render(k) in now.cache ==>
      && k.slug !in bypass
      && var v, row := now.cache[Render(k)], Lookup(now.table.rows, k);
      row == Some(v) || (row == None && WipedSince(es, s, k, v))
  }

  /** One call fills the entry truly, drops it, or leaves it over an unchanged or a removed row. */
  lemma WideCall(ns: iset<Namespace>, bypass: iset<string>, e: Event, k: RowKey, s: State)
    requires PrefixFree(ns) && NamespaceOf(k) in ns && ReadsWithin(ns, e.slug, e.op) && DisciplinedButWide(bypass, e)
    requires Render(k) in s.cache ==> k.slug !in bypass
    requires Render(k) in ExecEvent(e, s).cache
    ensures k.slug !in bypass
    ensures var after := ExecEvent(e, s);
            var v, row := after.cache[Render(k)], Lookup(after.table.rows, k);
            || row == Some(v)
            || (&& Render(k) in s.cache && s.cache[Render(k)] == v && !Cleans(e.slug, e.op, k)
                && row == if Removes(e.slug, e.op, k) then None else Lookup(s.table.rows, k))
  {
    match e.op
    case Get(group, key, _) =>
      if Render(RowKey(e.slug, group, key)) == Render(k) {
        RenderInjective(ns, RowKey(e.slug, group, key), k);
      }
    case Set(group, key, value, _) => LookupUpserted(s.table, RowKey(e.slug, group, key), value, k);
    case Del(group, key, _) => LookupRemoved(s.table.rows, Filter(e.slug, group, key), k);
    case _ =>
  }

  lemma {:induction false} WideRun(ns: iset<Namespace>, bypass: iset<string>, es: seq<Event>, k: RowKey, s: State)
    requires PrefixFree(ns) && NamespaceOf(k) in ns && AllReadWithin(ns, es) && s.cache == map[]
    requires forall i :: 0 <= i < |es| ==> DisciplinedButWide(bypass, es[i])
    ensures TrueOrWiped(bypass, es, s, k)
  {
    if es != [] {
      var before, e := es[..|es| - 1], es[|es| - 1];
      var mid := Run(before, s);
      WideRun(ns, bypass, before, k, s);
      assert es == before + [e];
      if Render(k) in ExecEvent(e, mid).cache {
        WideCall(ns, bypass, e, k, mid);
        if Lookup(ExecEvent(e, mid).table.rows, k) != Some(ExecEvent(e, mid).cache[Render(k)]) {
          WipedSinceAppend(before, s, e, k, mid.cache[Render(k)]);
        }
      }
    }
  }

  /**
    With group-only and key-only deletes allowed, a stale entry always belongs to an absent
    row: such a delete removed it while it held the cached value, and no write or point
    delete of it came since.
  */
  lemma WideDeleteStaleness(ns: iset<Namespace>, bypass: iset<string>, es: seq<Event>, k: RowKey, s: State)
    requires PrefixFree(ns) && NamespaceOf(k) in ns && AllReadWithin(ns, es) && s.cache == map[]
    requires forall i :: 0 <= i < |es| ==> DisciplinedButWide(bypass, es[i])
    requires Stale(Run(es, s), k)
    ensures var now := Run(es, s); Lookup(now.table.rows, k) == None && WipedSince(es, s, k, now.cache[Render(k)])
  {
    WideRun(ns, bypass, es, k, s);
  }

  const AllOk := Env(true, true, true, true, true)

  /** Two colliding namespaces are enough to cache one address's value under the other. */
  lemma CollisionBreaksCoherence(ns: iset<Namespace>, a: Namespace, b: Namespace) returns (es: seq<Event>)
    requires a in ns && b in ns && a != b && Header(a) <= Header(b)
    ensures AllReadWithin(ns, es) && DisciplinedRun(iset{}, es)
    ensures !Coherent(ns, Run(es, Empty))
  {
    var rest := Header(b)[|Header(a)|..];
    var x, y := RowKey(a.slug, a.group, rest + "x"), RowKey(b.slug, b.group, "x");
    assert Header(b) == Header(a) + rest;
    assert Render(x) == Render(y);
    var write, read := Event(x.slug, 0, Set(x.group, x.key, "v", AllOk)), Event(x.slug, 0, Get(x.group, x.key, AllOk));
    es := [write, read];
    var s1 := ExecEvent(write, Empty);
    RunAppend([], write, Empty);
    RunAppend([write], read, Empty);
    assert [] + [write] == [write] && [write] + [read] == es;
    LookupUpserted(Empty.table, x, "v", x);
    LookupUpserted(Empty.table, x, "v", y);
    assert Stale(Run(es, Empty), y) && NamespaceOf(y) in ns;
  }

  /** Over a set of namespaces, point runs keep the cache coherent iff no header starts another. */
  lemma CoherenceIffPrefixFree(ns: iset<Namespace>)
    ensures PrefixFree(ns) <==>
            forall es :: AllReadWithin(ns, es) && DisciplinedRun(iset{}, es) ==> Coherent(ns, Run(es, Empty))
  {
    if PrefixFree(ns) {
      forall es | AllReadWithin(ns, es) && DisciplinedRun(iset{}, es)
        ensures Coherent(ns, Run(es, Empty))
      {
        PointRunsCoherent(ns, iset{}, es, Empty);
      }
    } else {
      var a, b :| a in ns && b in ns && Header(a) <= Header(b) && a != b;
      var es := CollisionBreaksCoherence(ns, a, b);
    }
  }

  /** Whatever the keys hold, plugins whose slugs and groups have no colon stay coherent. */
  lemma NoColonRunsCoherent(bypass: iset<string>, es: seq<Event>, s: State)
    requires AllReadWithin(ColonFree(), es) && DisciplinedRun(bypass, es)
    requires s.cache == map[]
    ensures Coherent(ColonFree(), Run(es, s))
  {
    NoColonPrefixFree();
    PointRunsCoherent(ColonFree(), bypass, es, s);
  }

  /** Switching one operator's TTL below zero for a write leaves its old entry behind. */
  lemma SwitchingTTLGoesStale(slug: string, group: string, key: string, v: string, w: string)
    requires key != "" && v != w
    ensures var es := [Event(slug, 0, Set(group, key, v, AllOk)), Event(slug, 0, Get(group, key, AllOk)),
                       Event(slug, -1, Set(group, key, w, AllOk))];
            Stale(Run(es, Empty), RowKey(slug, group, key))
  {
    var k := RowKey(slug, group, key);
    var e1, e2, e3 := Event(slug, 0, Set(group, key, v, AllOk)), Event(slug, 0, Get(group, key, AllOk)),
                      Event(slug, -1, Set(group, key, w, AllOk));
    var es := [e1, e2, e3];
    var s1 := ExecEvent(e1, Empty);
    var s2 := ExecEvent(e2, s1);
    RunAppend([], e1, Empty);
    RunAppend([e1], e2, Empty);
    RunAppend([e1, e2], e3, Empty);
    assert [] + [e1] == [e1] && [e1] + [e2] == [e1, e2] && [e1, e2] + [e3] == es;
    LookupUpserted(Empty.table, k, v, k);
    LookupUpserted(s1.table, k, w, k);
  }
}
