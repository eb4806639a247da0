/**
  What each call of the operator answers, and what it does to every row and every entry, in
  terms of the call and of the state before it alone.
*/
module CallLaws {
  import opened Common
  import opened KVTable
  import opened CacheKey
  import opened KVSemantics

  /** An entry of the shared cache that the operator may read: caching is on and the cache answers. */
  predicate Readable(entry: string, env: Env, s: State) {
    s.ttl >= 0 && env.cacheReadOk && entry in s.cache
  }

  /** The entry of an address has this name. */
  lemma EntryName(slug: string, group: string, key: string)
    ensures Render(RowKey(slug, group, key)) == "plugin_kv_storage:" + slug + ":group:" + group + ":key:" + key
  {
  }

  /** A cached value is returned whatever the statements do, and nothing changes. */
  lemma CachedReadAnswers(slug: string, inTx: bool, group: string, key: string, env: Env, s: State)
    requires key != "" && Readable(Render(RowKey(slug, group, key)), env, s)
    ensures GetCall(slug, inTx, group, key, env, s) == Outcome(s, Success(s.cache[Render(RowKey(slug, group, key))]))
  {
  }

  /** Any other read answers from the table, or with the error that its statement met. */
  lemma UncachedReadAnswers(slug: string, inTx: bool, group: string, key: string, env: Env, s: State, v: string)
    requires key != "" && !Readable(Render(RowKey(slug, group, key)), env, s)
    ensures var r := GetCall(slug, inTx, group, key, env, s).result;
            && (r == Success(v) <==> env.dbOk && Lookup(s.table.rows, RowKey(slug, group, key)) == Some(v))
            && (r == Failure(NotFound) <==> env.dbOk && Lookup(s.table.rows, RowKey(slug, group, key)) == None)
            && (r == Failure(Storage) <==> !env.dbOk)
            && r != Failure(KeyEmpty)
  {
  }

  lemma EmptyKeysRefused(slug: string, inTx: bool, group: string, value: string, env: Env, s: State)
    ensures GetCall(slug, inTx, group, "", env, s) == Outcome(s, Failure(KeyEmpty))
    ensures SetCall(slug, inTx, group, "", value, env, s) == Outcome(s, Failure(KeyEmpty))
    ensures DelCall(slug, inTx, "", "", env, s) == Outcome(s, Failure(KeyAndGroupEmpty))
  {
  }

  /** A read leaves the table alone, and in the cache at most adds what it answers under its own name. */
  lemma ReadEffect(slug: string, inTx: bool, group: string, key: string, env: Env, s: State, entry: string)
    ensures var out := GetCall(slug, inTx, group, key, env, s);
            var own := Render(RowKey(slug, group, key));
            && out.state.table == s.table && out.state.ttl == s.ttl && out.state.commits == s.commits
            && out.state.sessions == (if inTx || key == "" || Readable(own, env, s) then s.sessions else s.sessions + 1)
            && (entry != own ==> (entry in out.state.cache <==> entry in s.cache))
            && (entry != own && entry in s.cache ==> out.state.cache[entry] == s.cache[entry])
            && (own in out.state.cache ==>
                out.result == Success(out.state.cache[own]) || (own in s.cache && out.state.cache[own] == s.cache[own]))
            && (out.result.Success? && s.ttl >= 0 && env.cacheWriteOk ==>
                own in out.state.cache && out.state.cache[own] == out.result.value)
            && (s.ttl < 0 || !env.cacheWriteOk ==> out.state.cache == s.cache)
  {
  }

  /** Of all entries, a cleaning call removes its own, if caching is on and the cache performs it, and no other. */
  predicate Cleaned(own: string, env: Env, before: State, after: State) {
    after.cache == if before.ttl >= 0 && env.cacheDelOk then before.cache - {own} else before.cache
  }

  /**
    A write succeeds iff its update does and, where it finds no row, its insert. On success
    the address holds the value and every other address what it held; on failure the table
    is as before. Either way its entry is cleaned.
  */
  lemma WriteAnswers(
    slug: string, inTx: bool, group: string, key: string, value: string, env: Env, s: State, other: RowKey)
    requires key != ""
    ensures var k := RowKey(slug, group, key);
            var out := SetCall(slug, inTx, group, key, value, env, s);
            && (out.result.Success? <==> env.dbOk && (Lookup(s.table.rows, k).Some? || env.insertOk))
            && (out.result.Success? ==> Lookup(out.state.table.rows, k) == Some(value))
            && (out.result.Success? && other != k ==> Lookup(out.state.table.rows, other) == Lookup(s.table.rows, other))
            && (out.result.Failure? ==> out.result.error == Storage && out.state.table == s.table)
            && Cleaned(Render(k), env, s, out.state)
            && out.state.ttl == s.ttl && out.state.commits == s.commits
            && out.state.sessions == if inTx then s.sessions else s.sessions + 1
  {
    AffectedIffPresent(s.table.rows, RowKey(slug, group, key));
    LookupUpserted(s.table, RowKey(slug, group, key), value, other);
    LookupUpserted(s.table, RowKey(slug, group, key), value, RowKey(slug, group, key));
  }

  /**
    A delete with a group or a key succeeds iff its statement does. On success no row of the
    plugin is left that has the group, if one is given, and the key, if one is given, and
    every other address holds what it held; on failure the table is as before. Either way the
    one entry that its group and key name is cleaned.
  */
  lemma DeleteAnswers(slug: string, inTx: bool, group: string, key: string, env: Env, s: State, k: RowKey)
    requires group != "" || key != ""
    ensures var out := DelCall(slug, inTx, group, key, env, s);
            var hit := k.slug == slug && (group == "" || k.group == group) && (key == "" || k.key == key);
            && (out.result.Success? <==> env.dbOk)
            && (out.result.Success? ==> Lookup(out.state.table.rows, k) == if hit then None else Lookup(s.table.rows, k))
            && (out.result.Failure? ==> out.result.error == Storage && out.state.table == s.table)
            && Cleaned(Render(RowKey(slug, group, key)), env, s, out.state)
            && out.state.ttl == s.ttl && out.state.commits == s.commits
            && out.state.sessions == if inTx then s.sessions else s.sessions + 1
  {
    LookupRemoved(s.table.rows, Filter(slug, group, key), k);
  }

  /** A nested transaction succeeds iff its function does; an outermost one iff it also begins and commits. */
  lemma TxAnswers(env: TxEnv)
    ensures TxSucceeds(true, env) <==> env.fnOk
    ensures TxSucceeds(false, env) <==> env.beginOk && env.fnOk && env.commitOk
  {
  }
}
