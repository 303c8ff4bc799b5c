/**
  The pooled facade (class `async_db`): no connection until `connect` creates
  the pool; `ensure_tables` and `exec` check a connection out of the pool and
  run once, with no retry. Each awaited call is one atomic step here.
*/
module Async {
  import opened Driver
  import opened Config
  import opened Results
  import opened Retry
  import opened Schema

  class AsyncDb {
    const server: Server
    const user: string
    const password: string
    const ip: string
    const database: string
    /** TABLES; None when the caller supplied no dictionary or a completed pass deleted it. */
    var tables: Option<TableDefs>
    /** Sticky: some pass of `ensure_tables` created a table. */
    var failed: bool
    /** The pool's generation; None until `connect` has assigned one. */
    var pool: Option<nat>
    /** The runs of wrapped operations so far. */
    ghost var trace: seq<Step>

    /**
      `async_db(user, password, ip, database, tables)`: a falsy `ip` becomes
      "localhost", `failed` starts false, and nothing is connected yet.
    */
    constructor (server: Server, user: string, password: string, ip: Option<string>, database: string,
                 tables: Option<TableDefs>)
      ensures this.server == server && this.user == user && this.password == password
      ensures this.ip == DefaultHost(ip) && this.database == database && this.tables == tables
      ensures !failed && pool == None && trace == []
    {
      this.server := server;
      this.user := user;
      this.password := password;
      this.ip := DefaultHost(ip);
      this.database := database;
      this.tables := tables;
      failed := false;
      pool := None;
      trace := [];
    }

    /** `connect`: create the pool; an error propagates and leaves `pool` as it was. */
    method Connect() returns (err: Option<ErrorKind>)
      modifies this`pool, server
      ensures err == server.fault(old(server.submitted)) && server.submitted == old(server.submitted) + 1
      ensures server.tables == old(server.tables)
      ensures err.None? ==> pool == Some(server.connections) && server.connections == old(server.connections) + 1
      ensures err.None? ==> server.log == old(server.log) + [OpenConnection(ip, user, password, database)]
      ensures err.Some? ==> pool == old(pool) && server.connections == old(server.connections)
      ensures err.Some? ==> server.log == old(server.log)
    {
      var c := server.Connect(ip, user, password, database);
      if c.Ok? {
        pool := Some(c.value);
      }
      err := ErrorOf(c);
    }

    /**
      `ensure_tables` through the pooled `requires_connection`: one pass over
      TABLES, after which TABLES is deleted. A pass aborted by an error keeps
      TABLES; a call after a completed pass raises AttributeError.
    */
    method EnsureTables() returns (r: Outcome<Summary>, ghost steps: seq<Step>, ghost done: seq<Request>)
      modifies this`failed, this`tables, this`trace, server
      ensures trace == old(trace) + steps && CalledOnce(steps, ErrorOf(r), pool.Some?)
      ensures server.connections == old(server.connections)
      ensures server.log == old(server.log) + done
      ensures NoDuplicates(Created(done)) && Elements(Created(done)) == server.tables - old(server.tables)
      ensures pool.None? || old(tables).None? ==>
        r == Raised(AttributeError) && tables == old(tables) && failed == old(failed)
        && server.tables == old(server.tables) && done == []
      ensures pool.None? || old(tables).None? ==> server.submitted == old(server.submitted)
      ensures old(server.submitted) <= server.submitted
      ensures r.Raised? && pool.Some? && old(tables).Some? ==>
        old(server.submitted) < server.submitted && server.fault(server.submitted - 1) == Some(r.error)
      ensures old(server.tables) <= server.tables
      ensures old(tables).Some? ==> server.tables <= old(server.tables) + Keys(old(tables).value)
      ensures failed == (old(failed) || server.tables != old(server.tables))
      ensures r.Ok? ==> tables == None
      ensures r.Raised? ==> tables == old(tables)
      ensures r.Ok? ==> old(tables).Some? && server.tables == old(server.tables) + Keys(old(tables).value)
      ensures r.Ok? ==> done == PassRequests(old(tables).value, old(server.tables))
      ensures r.Raised? && pool.Some? && old(tables).Some? ==>
        StrictPrefix(done, PassRequests(old(tables).value, old(server.tables)))
      ensures r.Ok? ==> failed == (old(failed) || !(Keys(old(tables).value) <= old(server.tables)))
      ensures r.Ok? ==> (r.value == NothingToDo <==> !failed)
    {
      if pool.None? {
        return Raised(AttributeError), [], [];
      }
      if tables.None? {
        r, done := Raised(AttributeError), [];
      } else {
        failed, r, done := EnsurePass(server, tables.value, failed);
        if r.Ok? {
          tables := None;
        }
      }
      trace := trace + [Invoked(ErrorOf(r))];
      steps := [Invoked(ErrorOf(r))];
    }

    /**
      `exec` through the pooled `requires_connection`: run the query once and
      return the fetched rows, None when there are none; never retried.
    */
    method Exec(query: string, params: seq<Value>) returns (r: Outcome<Option<seq<Row>>>, ghost steps: seq<Step>)
      modifies this`trace, server
      ensures trace == old(trace) + steps && CalledOnce(steps, ErrorOf(r), pool.Some?)
      ensures server.tables == old(server.tables) && server.connections == old(server.connections)
      ensures pool.None? ==> r == Raised(AttributeError) && server.submitted == old(server.submitted)
      ensures pool.Some? ==> server.submitted == old(server.submitted) + 1 && ErrorOf(r) == server.fault(old(server.submitted))
      ensures r.Ok? ==> r.value == NormalizeAsync(server.answer(query, params))
      ensures server.log == old(server.log) + (if r.Ok? then [Query(query, params)] else [])
    {
      if pool.None? {
        return Raised(AttributeError), [];
      }
      var rows := server.Execute(query, params);
      if rows.Raised? {
        r := Raised(rows.error);
      } else {
        r := Ok(NormalizeAsync(rows.value));
      }
      trace := trace + [Invoked(ErrorOf(r))];
      steps := [Invoked(ErrorOf(r))];
    }
  }
}
