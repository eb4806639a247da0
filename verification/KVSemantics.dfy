/**
  What the key-value operator's calls do to the table and the cache, as functions on values.

  Everything the outside world decides is part of the call: whether the cache answers,
  whether a statement fails, whether a transaction begins, whether the callback returns nil.
  A transaction callback is represented by the calls it makes on its operator.
*/
module KVSemantics {
  import opened Common
  import opened KVTable
  import opened CacheKey

  datatype KVError = KeyEmpty | GroupEmpty | KeyAndGroupEmpty | NotFound | Storage | TransactionFailed

  datatype Env = Env(cacheReadOk: bool, cacheWriteOk: bool, cacheDelOk: bool, dbOk: bool, insertOk: bool)

  datatype TxEnv = TxEnv(beginOk: bool, fnOk: bool, commitOk: bool)

  datatype Op =
    | Get(group: string, key: string, env: Env)
    | Set(group: string, key: string, value: string, env: Env)
    | Del(group: string, key: string, env: Env)
    | GetByGroup(group: string, page: int, pageSize: int, env: Env)
    | SetTTL(ttl: int)
    | Expire(entry: string)  // a cache entry disappears on its own
    | Tx(body: seq<Op>, txEnv: TxEnv)

  /**
    The table as the operator's session sees it, the shared cache, the operator's TTL, and
    how many sessions were opened and transactions committed so far.
  */
  datatype State = State(table: Table, cache: map<string, string>, ttl: int, sessions: nat, commits: nat)

  datatype Outcome<+T> = Outcome(state: State, result: Result<T, KVError>)

  function Opened(inTx: bool, s: State): State {
    if inTx then s else s.(sessions := s.sessions + 1)
  }

  function CacheGet(k: RowKey, env: Env, s: State): Option<string> {
    if s.ttl < 0 || !env.cacheReadOk || Render(k) !in s.cache then None else Some(s.cache[Render(k)])
  }

  function CacheSet(k: RowKey, v: string, env: Env, s: State): State {
    if s.ttl < 0 || !env.cacheWriteOk then s else s.(cache := s.cache[Render(k) := v])
  }

  /** The entry goes only when caching is on and the cache performs the delete. */
  function CacheClean(k: RowKey, env: Env, s: State): State {
    if s.ttl < 0 || !env.cacheDelOk then s else s.(cache := s.cache - {Render(k)})
  }

  function GetCall(slug: string, inTx: bool, group: string, key: string, env: Env, s: State): Outcome<string> {
    var k := RowKey(slug, group, key);
    if key == "" then Outcome(s, Failure(KeyEmpty))
    else
      match CacheGet(k, env, s)
      case Some(v) => Outcome(s, Success(v))
      case None =>
        var s' := Opened(inTx, s);
        if !env.dbOk then Outcome(s', Failure(Storage))
        else
          match Lookup(s.table.rows, k)
          case None => Outcome(s', Failure(NotFound))
          case Some(v) => Outcome(CacheSet(k, v, env, s'), Success(v))
  }

  function SetCall(slug: string, inTx: bool, group: string, key: string, value: string, env: Env, s: State): Outcome<()> {
    var k := RowKey(slug, group, key);
    if key == "" then Outcome(s, Failure(KeyEmpty))
    else
      var s' := CacheClean(k, env, Opened(inTx, s));
      if !env.dbOk || (Affected(s.table.rows, k) == 0 && !env.insertOk) then Outcome(s', Failure(Storage))
      else Outcome(s'.(table := Upserted(s.table, k, value)), Success(()))
  }

  function DelCall(slug: string, inTx: bool, group: string, key: string, env: Env, s: State): Outcome<()> {
    if key == "" && group == "" then Outcome(s, Failure(KeyAndGroupEmpty))
    else
      var s' := Opened(inTx, CacheClean(RowKey(slug, group, key), env, s));
      if !env.dbOk then Outcome(s', Failure(Storage))
      else Outcome(s'.(table := Table(Removed(s.table.rows, Filter(slug, group, key)), s.table.nextId)), Success(()))
  }

  /** The state after one call; `inTx` says that the operator already holds a session. */
  function Exec(slug: string, inTx: bool, op: Op, s: State): State
    decreases op, 1
  {
    match op
    case Get(group, key, env) => GetCall(slug, inTx, group, key, env, s).state
    case Set(group, key, value, env) => SetCall(slug, inTx, group, key, value, env, s).state
    case Del(group, key, env) => DelCall(slug, inTx, group, key, env, s).state
    case GetByGroup(group, _, _, _) => if group == "" then s else Opened(inTx, s)
    case SetTTL(ttl) => s.(ttl := ttl)
    case Expire(entry) => s.(cache := s.cache - {entry})
    case Tx(body, env) =>
      if inTx then ExecAll(slug, true, body, s)
      else
        var s' := Opened(false, s);
        if !env.beginOk then s'
        else
          // The transaction's operator is a new one, and its TTL is the zero value.
          var t := ExecAll(slug, true, body, s'.(ttl := 0)).(ttl := s.ttl);
          if env.fnOk && env.commitOk then t.(commits := t.commits + 1)
          else t.(table := Table(s.table.rows, t.table.nextId))
  }

  function ExecAll(slug: string, inTx: bool, ops: seq<Op>, s: State): State
    decreases ops, 0
  {
    if ops == [] then s else ExecAll(slug, inTx, ops[1..], Exec(slug, inTx, ops[0], s))
  }

  predicate TxSucceeds(inTx: bool, env: TxEnv) {
    env.fnOk && (inTx || (env.beginOk && env.commitOk))
  }

  /** One call on the operator of one plugin, with the TTL that operator has at that moment. */
  datatype Event = Event(slug: string, ttl: int, op: Op)

  function ExecEvent(e: Event, s: State): State {
    Exec(e.slug, false, e.op, s.(ttl := e.ttl))
  }

  function Run(es: seq<Event>, s: State): State {
    if es == [] then s else ExecEvent(es[|es| - 1], Run(es[..|es| - 1], s))
  }

  lemma RunAppend(es: seq<Event>, e: Event, s: State)
    ensures Run(es + [e], s) == ExecEvent(e, Run(es, s))
  {
    assert (es + [e])[..|es|] == es;
  }

  const Empty := State(Table([], 0), map[], 0, 0, 0)

  lemma {:induction false} ExecAllAppend(slug: string, inTx: bool, ops: seq<Op>, op: Op, s: State)
    ensures ExecAll(slug, inTx, ops + [op], s) == Exec(slug, inTx, op, ExecAll(slug, inTx, ops, s))
  {
    if ops == [] {
      assert ops + [op] == [op];
    } else {
      assert (ops + [op])[1..] == ops[1..] + [op];
      ExecAllAppend(slug, inTx, ops[1..], op, Exec(slug, inTx, ops[0], s));
    }
  }

  lemma ValidLater(t: Table, nextId: nat)
    requires Valid(t) && t.nextId <= nextId
    ensures Valid(Table(t.rows, nextId))
  {
  }

  /** Every call keeps the table valid, and the id counter never goes back. */
  lemma {:induction false} ExecValid(slug: string, inTx: bool, op: Op, s: State)
    requires Valid(s.table)
    ensures Valid(Exec(slug, inTx, op, s).table)
    ensures s.table.nextId <= Exec(slug, inTx, op, s).table.nextId
    decreases op, 1
  {
    match op
    case Set(group, key, value, env) =>
      if key != "" {
        UpsertedValid(s.table, RowKey(slug, group, key), value);
      }
    case Del(group, key, env) =>
      RemovedValid(s.table, Filter(slug, group, key));
    case Tx(body, env) =>
      if inTx {
        ExecAllValid(slug, true, body, s);
      } else {
        var start := Opened(false, s).(ttl := 0);
        ExecAllValid(slug, true, body, start);
        ValidLater(s.table, ExecAll(slug, true, body, start).table.nextId);
      }
    case _ =>
  }

  lemma {:induction false} ExecAllValid(slug: string, inTx: bool, ops: seq<Op>, s: State)
    requires Valid(s.table)
    ensures Valid(ExecAll(slug, inTx, ops, s).table)
    ensures s.table.nextId <= ExecAll(slug, inTx, ops, s).table.nextId
    decreases ops, 0
  {
    if ops != [] {
      ExecValid(slug, inTx, ops[0], s);
      ExecAllValid(slug, inTx, ops[1..], Exec(slug, inTx, ops[0], s));
    }
  }

  lemma {:induction false} RunValid(es: seq<Event>, s: State)
    requires Valid(s.table)
    ensures Valid(Run(es, s).table)
  {
    if es != [] {
      var e, before := es[|es| - 1], Run(es[..|es| - 1], s);
      RunValid(es[..|es| - 1], s);
      ExecValid(e.slug, false, e.op, before.(ttl := e.ttl));
    }
  }
}
