/**
  The key-value operator as objects: a database shared by all operators, the shared string
  cache, sessions, and the operator itself. Each method is tied to the function of
  `KVSemantics` that says what the call does.
*/
module KVOperator {
  import opened Common
  import opened KVTable
  import opened CacheKey
  import opened KVSemantics
  import Pagination
  import Transactions

  class Database {
    var rows: seq<Row>
    var nextId: nat
    var sessions: nat
    var commits: nat
  }

  class StringCache {
    var entries: map<string, string>
  }

  /**
    A database session. Outside a transaction its statements act on the database; inside one
    they act on a private copy that `Commit` publishes and `Close` discards.
  */
  class Session {
    const db: Database
    var inTx: bool
    var rows: seq<Row>

    constructor (db: Database)
      modifies db
      ensures this.db == db && !inTx
      ensures db.rows == old(db.rows) && db.nextId == old(db.nextId) && db.commits == old(db.commits)
      ensures db.sessions == old(db.sessions) + 1
    {
      this.db, inTx, rows := db, false, [];
      new;
      db.sessions := db.sessions + 1;
    }

    function View(): seq<Row>
      reads this, db
    {
      if inTx then rows else db.rows
    }

    method Write(rows: seq<Row>)
      modifies this`rows, db`rows
      ensures View() == rows
      ensures inTx ==> db.rows == old(db.rows)
    {
      if inTx {
        this.rows := rows;
      } else {
        db.rows := rows;
      }
    }

    method Insert(k: RowKey, v: string)
      modifies this`rows, db`rows, db`nextId
      ensures Table(View(), db.nextId) == Inserted(old(Table(View(), db.nextId)), k, v)
      ensures inTx ==> db.rows == old(db.rows)
    {
      Write(Inserted(Table(View(), db.nextId), k, v).rows);
      db.nextId := db.nextId + 1;
    }

    method Begin(ok: bool)
      requires !inTx
      modifies this
      ensures inTx == ok
      ensures View() == old(View())
    {
      if ok {
        inTx, rows := true, db.rows;
      }
    }

    method Commit(ok: bool)
      requires inTx
      modifies this, db`rows, db`commits
      ensures db.rows == if ok then old(rows) else old(db.rows)
      ensures db.commits == if ok then old(db.commits) + 1 else old(db.commits)
    {
      if ok {
        db.rows, db.commits := rows, db.commits + 1;
        inTx := false;
      }
    }

    /** Whatever was not committed is gone. */
    method Close()
      modifies this
      ensures !inTx && View() == db.rows
    {
      inTx, rows := false, [];
    }
  }

  class KVOperator {
    const db: Database
    const cache: StringCache
    const session: Session?
    const slug: string
    var cacheTTL: int

    constructor (db: Database, cache: StringCache, session: Session?, slug: string, cacheTTL: int)
      ensures this.db == db && this.cache == cache && this.session == session && this.slug == slug
      ensures this.cacheTTL == cacheTTL
    {
      this.db, this.cache, this.session, this.slug, this.cacheTTL := db, cache, session, slug, cacheTTL;
    }

    /** An operator that carries a session is one that `Tx` made, and its transaction is open. */
    ghost predicate Valid()
      reads this, session
    {
      session != null ==> session.db == db && session.inTx
    }

    ghost function Footprint(): set<object>
    {
      {this, db, cache} + if session == null then {} else {session}
    }

    ghost function Abs(): State
      reads this, db, cache, session
    {
      var rows := if session == null then db.rows else session.rows;
      State(Table(rows, db.nextId), cache.entries, cacheTTL, db.sessions, db.commits)
    }

    method SetTTL(ttl: int)
      modifies this
      ensures Abs() == old(Abs()).(ttl := ttl)
    {
      cacheTTL := ttl;
    }

    method GetSession() returns (s: Session)
      requires Valid()
      modifies db
      ensures Abs() == Opened(session != null, old(Abs())) && db.rows == old(db.rows)
      ensures s.db == db && s.View() == Abs().table.rows
      ensures if session == null then fresh(s) && !s.inTx else s == session
    {
      if session == null {
        s := new Session(db);
      } else {
        s := session;
      }
    }

    method ReadCache(k: RowKey, env: Env) returns (hit: Option<string>)
      ensures hit == CacheGet(k, env, Abs())
    {
      if cacheTTL < 0 {
        return None;
      }
      var entry := Render(k);
      return if env.cacheReadOk && entry in cache.entries then Some(cache.entries[entry]) else None;
    }

    method WriteCache(k: RowKey, v: string, env: Env)
      modifies cache
      ensures Abs() == CacheSet(k, v, env, old(Abs()))
    {
      if cacheTTL < 0 {
        return;
      }
      if env.cacheWriteOk {
        cache.entries := cache.entries[Render(k) := v];
      }
    }

    method CleanCache(k: RowKey, env: Env)
      modifies cache
      ensures Abs() == CacheClean(k, env, old(Abs()))
    {
      if cacheTTL < 0 {
        return;
      }
      if env.cacheDelOk {
        cache.entries := cache.entries - {Render(k)};
      }
    }

    method Get(group: string, key: string, env: Env) returns (r: Result<string, KVError>)
      requires Valid()
      modifies Footprint()
      ensures Valid()
      ensures Outcome(Abs(), r) == GetCall(slug, session != null, group, key, env, old(Abs()))
      ensures session != null ==> db.rows == old(db.rows)
    {
      if key == "" {
        return Failure(KeyEmpty);
      }
      var k := RowKey(slug, group, key);
      var hit := ReadCache(k, env);
      if hit.Some? {
        return Success(hit.value);
      }
      var query := GetSession();
      if !env.dbOk {
        return Failure(Storage);
      }
      var found := Lookup(query.View(), k);
      if found.None? {
        return Failure(NotFound);
      }
      WriteCache(k, found.value, env);
      return Success(found.value);
    }

    method Set(group: string, key: string, value: string, env: Env) returns (r: Result<(), KVError>)
      requires Valid()
      modifies Footprint()
      ensures Valid()
      ensures Outcome(Abs(), r) == SetCall(slug, session != null, group, key, value, env, old(Abs()))
      ensures session != null ==> db.rows == old(db.rows)
    {
      if key == "" {
        return Failure(KeyEmpty);
      }
      var k := RowKey(slug, group, key);
      var query := GetSession();
      CleanCache(k, env);
      if !env.dbOk {
        return Failure(Storage);
      }
      var affected := Affected(query.View(), k);
      if affected == 0 {
        if !env.insertOk {
          return Failure(Storage);
        }
        query.Insert(k, value);
      } else {
        query.Write(Updated(query.View(), k, value));
      }
      return Success(());
    }

    method Del(group: string, key: string, env: Env) returns (r: Result<(), KVError>)
      requires Valid()
      modifies Footprint()
      ensures Valid()
      ensures Outcome(Abs(), r) == DelCall(slug, session != null, group, key, env, old(Abs()))
      ensures session != null ==> db.rows == old(db.rows)
    {
      if key == "" && group == "" {
        return Failure(KeyAndGroupEmpty);
      }
      CleanCache(RowKey(slug, group, key), env);
      var query := GetSession();
      if !env.dbOk {
        return Failure(Storage);
      }
      query.Write(Removed(query.View(), Filter(slug, group, key)));
      return Success(());
    }

    method GetByGroup(group: string, page: int, pageSize: int, env: Env) returns (r: Result<map<string, string>, KVError>)
      requires Valid()
      modifies Footprint()
      ensures Valid()
      ensures Abs() == Exec(slug, session != null, Op.GetByGroup(group, page, pageSize, env), old(Abs()))
      ensures r == if group == "" then Failure(GroupEmpty)
                   else if !env.dbOk then Failure(Storage)
                   else Success(Pagination.GroupPage(old(Abs()).table.rows, Namespace(slug, group), page, pageSize))
      ensures session != null ==> db.rows == old(db.rows)
    {
      if group == "" {
        return Failure(GroupEmpty);
      }
      var query := GetSession();
      if !env.dbOk {
        return Failure(Storage);
      }
      var items := Pagination.PageRows(query.View(), Namespace(slug, group), page, pageSize);
      var result := map[];
      for i := 0 to |items|
        invariant result == Pagination.AsMap(items[..i])
      {
        assert items[..i + 1][..i] == items[..i];
        result := result[items[i].at.key := items[i].value];
      }
      assert items[..|items|] == items;
      return Success(result);
    }

    /** One call on this operator, results left to the caller. */
    method Execute(op: Op)
      requires Valid()
      modifies Footprint()
      ensures Valid()
      ensures Abs() == Exec(slug, session != null, op, old(Abs()))
      ensures session != null ==> db.rows == old(db.rows)
      decreases op, 1
    {
      match op
      case Get(group, key, env) => var _ := Get(group, key, env);
      case Set(group, key, value, env) => var _ := Set(group, key, value, env);
      case Del(group, key, env) => var _ := Del(group, key, env);
      case GetByGroup(group, page, pageSize, env) => var _ := GetByGroup(group, page, pageSize, env);
      case SetTTL(ttl) => SetTTL(ttl);
      case Expire(entry) => cache.entries := cache.entries - {entry};
      case Tx(body, env) => var _ := Tx(body, env);
    }

    /** A transaction callback: the calls it makes on the operator it is given. */
    method Callback(body: seq<Op>)
      requires Valid() && session != null
      modifies Footprint()
      ensures Valid()
      ensures Abs() == ExecAll(slug, true, body, old(Abs()))
      ensures db.rows == old(db.rows)
      decreases body, 0
    {
      ghost var start := Abs();
      for i := 0 to |body|
        invariant Valid() && db.rows == old(db.rows)
        invariant Abs() == ExecAll(slug, true, body[..i], start)
      {
        Execute(body[i]);
        assert body[..i + 1] == body[..i] + [body[i]];
        ExecAllAppend(slug, true, body[..i], body[i], start);
      }
      assert body[..|body|] == body;
    }

    method Tx(body: seq<Op>, env: TxEnv) returns (r: Result<(), KVError>)
      requires Valid()
      modifies Footprint()
      ensures Valid()
      ensures Abs() == Exec(slug, session != null, Op.Tx(body, env), old(Abs()))
      ensures !env.fnOk ==> r.Failure?
      ensures session != null ==> (r.Success? <==> env.fnOk)
      ensures session == null ==> (r.Success? <==> env.beginOk && env.fnOk && env.commitOk)
      ensures r.Failure? ==> r.error == TransactionFailed
      ensures session == null ==> db.sessions == old(db.sessions) + 1
      ensures session == null && r.Success? ==> db.commits == old(db.commits) + 1
      ensures session == null && r.Failure? ==> db.commits == old(db.commits) && db.rows == old(db.rows)
      ensures session != null ==> db.rows == old(db.rows)
      decreases body, 1
    {
      if session == null {
        Transactions.OuterTxIsAllOrNothing(slug, body, env, Abs());
      }
      var txKv := this;
      var shouldCommit := false;
      var own: Session? := null;

      if session == null {
        own := new Session(db);
        own.Begin(env.beginOk);
        if !env.beginOk {
          own.Close();
          return Failure(TransactionFailed);
        }
        txKv := new KVOperator(db, cache, own, slug, 0);
        shouldCommit := true;
      }

      txKv.Callback(body);
      if !env.fnOk {
        if own != null {
          own.Close();
        }
        return Failure(TransactionFailed);
      }

      if shouldCommit {
        own.Commit(env.commitOk);
        own.Close();
        if !env.commitOk {
          return Failure(TransactionFailed);
        }
      }
      return Success(());
    }
  }
}
