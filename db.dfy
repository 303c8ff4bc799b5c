/**
  The synchronous facade (class `db`): one persistent connection, opened when
  the object is built; `ensure_tables` and `exec` run through a wrapper that
  reconnects once and retries once when the connection is lost.
*/
module Sync {
  import opened Driver
  import opened Config
  import opened Results
  import opened Retry
  import opened Schema

  class Db {
    const server: Server
    const user: string
    const password: string
    const ip: string
    const database: string
    /** TABLES; None when the caller supplied no dictionary. */
    var tables: Option<TableDefs>
    /** Sticky: some pass of `ensure_tables` created a table. */
    var failed: bool
    /** The generation of the connection in use. */
    var conn: nat
    /** The steps taken through `requires_connection`, and reconnects, so far. */
    ghost var trace: seq<Step>

    constructor (server: Server, user: string, password: string, ip: string, database: string,
                 tables: Option<TableDefs>, conn: nat)
      ensures this.server == server && this.user == user && this.password == password
      ensures this.ip == ip && this.database == database && this.tables == tables
      ensures this.conn == conn && !failed && trace == []
    {
      this.server := server;
      this.user := user;
      this.password := password;
      this.ip := ip;
      this.database := database;
      this.tables := tables;
      this.conn := conn;
      failed := false;
      trace := [];
    }

    /**
      `db(user, password, ip, database, tables)`: a falsy `ip` becomes
      "localhost", `failed` starts false, and the connection is opened to
      that host; an error from connecting propagates and no object results.
    */
    static method Open(server: Server, user: string, password: string, ip: Option<string>, database: string,
                       tables: Option<TableDefs>) returns (r: Outcome<Db>)
      modifies server
      ensures server.tables == old(server.tables) && server.submitted == old(server.submitted) + 1
      ensures ErrorOf(r) == server.fault(old(server.submitted))
      ensures r.Ok? ==> fresh(r.value) && r.value.server == server
      ensures r.Ok? ==> r.value.ip == DefaultHost(ip) && r.value.user == user && r.value.password == password
      ensures r.Ok? ==> r.value.database == database && r.value.tables == tables
      ensures r.Ok? ==> !r.value.failed && r.value.trace == [] && r.value.conn == server.connections
      ensures r.Ok? ==> server.log == old(server.log) + [OpenConnection(DefaultHost(ip), user, password, database)]
      ensures r.Raised? ==> server.log == old(server.log)
    {
      var host := DefaultHost(ip);
      var c := server.Connect(host, user, password, database);
      if c.Raised? {
        return Raised(c.error);
      }
      var d := new Db(server, user, password, host, database, tables, c.value);
      return Ok(d);
    }

    /**
      `reconnect`: replace the connection with a freshly opened one. Nothing
      but `conn` changes; an error from connecting propagates and leaves
      `conn` as it was.
    */
    method Reconnect() returns (err: Option<ErrorKind>)
      modifies this`conn, this`trace, server
      ensures trace == old(trace) + [Reconnected(err)]
      ensures err == server.fault(old(server.submitted)) && server.submitted == old(server.submitted) + 1
      ensures server.tables == old(server.tables)
      ensures err.None? ==> conn == server.connections == old(server.connections) + 1
      ensures err.None? ==> server.log == old(server.log) + [OpenConnection(ip, user, password, database)]
      ensures err.Some? ==> conn == old(conn) && server.connections == old(server.connections)
      ensures err.Some? ==> server.log == old(server.log)
    {
      var c := server.Connect(ip, user, password, database);
      if c.Ok? {
        conn := c.value;
      }
      err := ErrorOf(c);
      trace := trace + [Reconnected(err)];
    }

    /**
      The undecorated `ensure_tables`: one pass over TABLES (AttributeError
      when there is none). `done` is the requests carried out: the whole pass,
      or, when a request raised, the strict prefix of it that came before.
    */
    method RunEnsureTables() returns (r: Outcome<Summary>, ghost done: seq<Request>)
      modifies this`failed, this`trace, server
      ensures trace == old(trace) + [Invoked(ErrorOf(r))]
      ensures server.connections == old(server.connections)
      ensures server.log == old(server.log) + done
      ensures NoDuplicates(Created(done)) && Elements(Created(done)) == server.tables - old(server.tables)
      ensures tables.None? ==> r == Raised(AttributeError) && done == [] && server.tables == old(server.tables)
      ensures tables.None? ==> server.submitted == old(server.submitted)
      ensures old(server.submitted) <= server.submitted
      ensures r.Raised? && tables.Some? ==>
        old(server.submitted) < server.submitted && server.fault(server.submitted - 1) == Some(r.error)
      ensures old(server.tables) <= server.tables
      ensures tables.Some? ==> server.tables <= old(server.tables) + Keys(tables.value)
      ensures failed == (old(failed) || server.tables != old(server.tables))
      ensures r.Ok? ==> tables.Some? && server.tables == old(server.tables) + Keys(tables.value)
      ensures r.Ok? ==> done == PassRequests(tables.value, old(server.tables))
      ensures r.Raised? && tables.Some? ==> StrictPrefix(done, PassRequests(tables.value, old(server.tables)))
      ensures r.Ok? ==> failed == (old(failed) || !(Keys(tables.value) <= old(server.tables)))
      ensures r.Ok? ==> (r.value == NothingToDo <==> !failed)
    {
      if tables.None? {
        r, done := Raised(AttributeError), [];
      } else {
        failed, r, done := EnsurePass(server, tables.value, failed);
      }
      trace := trace + [Invoked(ErrorOf(r))];
    }

    /**
      `ensure_tables` through `requires_connection`. `steps` are the wrapper's
      steps, `first` is what the first run carried out and, after a
      successful reconnect, `second` what the second run did; `done` is
      everything the call carried out. Every error comes from the server's
      fault schedule: after a retry, `at` is the number of the reconnect's
      request, and the first run failed on the request just before it. The
      second run starts from the tables the aborted first run left, so the
      call as a whole still creates each table at most once, never one that
      existed, and on success leaves every key of TABLES existing; when every
      key existed already, it creates nothing.
    */
    method EnsureTables() returns (r: Outcome<Summary>, ghost steps: seq<Step>, ghost done: seq<Request>,
                                   ghost first: seq<Request>, ghost second: seq<Request>, ghost at: nat)
      modifies this`failed, this`conn, this`trace, server
      ensures trace == old(trace) + steps && RetriedOnce(steps, ErrorOf(r))
      ensures conn == (if Rerun(steps) then server.connections else old(conn))
      ensures server.connections == old(server.connections) + (if Rerun(steps) then 1 else 0)
      ensures old(server.submitted) <= server.submitted
      ensures tables.Some? && r.Raised? ==>
        old(server.submitted) < server.submitted && server.fault(server.submitted - 1) == Some(r.error)
      ensures RetryScheduled(steps, server.fault, old(server.submitted), at, server.submitted)
      ensures server.log == old(server.log) + done
      ensures done == if Rerun(steps) then first + [OpenConnection(ip, user, password, database)] + second else first
      ensures NoDuplicates(Created(done)) && Elements(Created(done)) == server.tables - old(server.tables)
      ensures tables.None? ==> r == Raised(AttributeError) && done == [] && server.tables == old(server.tables)
      ensures tables.None? ==> server.submitted == old(server.submitted)
      ensures old(server.tables) <= server.tables
      ensures tables.Some? ==> server.tables <= old(server.tables) + Keys(tables.value)
      ensures tables.Some? && Keys(tables.value) <= old(server.tables) ==> Created(done) == []
      ensures failed == (old(failed) || server.tables != old(server.tables))
      ensures r.Ok? ==> tables.Some? && server.tables == old(server.tables) + Keys(tables.value)
      ensures r.Ok? ==> failed == (old(failed) || !(Keys(tables.value) <= old(server.tables)))
      ensures r.Ok? ==> (r.value == NothingToDo <==> !failed)
      ensures tables.Some? && !Rerun(steps) && r.Ok? ==> first == PassRequests(tables.value, old(server.tables))
      ensures tables.Some? && !Rerun(steps) && r.Raised? ==> StrictPrefix(first, PassRequests(tables.value, old(server.tables)))
      ensures tables.Some? && Rerun(steps) ==> StrictPrefix(first, PassRequests(tables.value, old(server.tables)))
      ensures tables.Some? && Rerun(steps) && r.Ok? ==>
        second == PassRequests(tables.value, old(server.tables) + Elements(Created(first)))
      ensures tables.Some? && Rerun(steps) && r.Raised? ==>
        StrictPrefix(second, PassRequests(tables.value, old(server.tables) + Elements(Created(first))))
    {
      var r0;
      r0, first := RunEnsureTables();
      r, steps, done, second, at :=
        FinishEnsureTables(old(trace), old(server.log), old(server.submitted), old(server.tables), old(failed), r0, first);
    }

    /**
      The rest of `ensure_tables` through `requires_connection` once the
      first run ended with `r0`: retry after a lost connection, otherwise
      keep the first run's result. `trace0`, `log0`, `s0`, `t0` and `f0` are
      the trace, the log, the request count, the tables and the flag before
      the first run, and `first` the requests it carried out; the ensures
      give the effect of the whole call.
    */
    method FinishEnsureTables(ghost trace0: seq<Step>, ghost log0: seq<Request>, ghost s0: nat, ghost t0: set<string>,
                              ghost f0: bool, r0: Outcome<Summary>, ghost first: seq<Request>)
      returns (r: Outcome<Summary>, ghost steps: seq<Step>, ghost done: seq<Request>, ghost second: seq<Request>,
               ghost at: nat)
      requires trace == trace0 + [Invoked(ErrorOf(r0))] && server.log == log0 + first
      requires NoDuplicates(Created(first)) && Elements(Created(first)) == server.tables - t0
      requires tables.None? ==> r0 == Raised(AttributeError) && first == [] && server.tables == t0
      requires tables.None? ==> server.submitted == s0
      requires s0 <= server.submitted
      requires r0.Raised? && tables.Some? ==> s0 < server.submitted && server.fault(server.submitted - 1) == Some(r0.error)
      requires t0 <= server.tables && (tables.Some? ==> server.tables <= t0 + Keys(tables.value))
      requires failed == (f0 || server.tables != t0)
      requires r0.Ok? ==> tables.Some? && server.tables == t0 + Keys(tables.value)
      requires r0.Ok? ==> first == PassRequests(tables.value, t0)
      requires r0.Raised? && tables.Some? ==> StrictPrefix(first, PassRequests(tables.value, t0))
      requires r0.Ok? ==> failed == (f0 || !(Keys(tables.value) <= t0))
      requires r0.Ok? ==> (r0.value == NothingToDo <==> !failed)
      modifies this`failed, this`conn, this`trace, server
      ensures trace == trace0 + steps && RetriedOnce(steps, ErrorOf(r))
      ensures conn == (if Rerun(steps) then server.connections else old(conn))
      ensures server.connections == old(server.connections) + (if Rerun(steps) then 1 else 0)
      ensures s0 <= server.submitted
      ensures tables.Some? && r.Raised? ==> s0 < server.submitted && server.fault(server.submitted - 1) == Some(r.error)
      ensures RetryScheduled(steps, server.fault, s0, at, server.submitted)
      ensures server.log == log0 + done
      ensures done == if Rerun(steps) then first + [OpenConnection(ip, user, password, database)] + second else first
      ensures NoDuplicates(Created(done)) && Elements(Created(done)) == server.tables - t0
      ensures tables.None? ==> r == Raised(AttributeError) && done == [] && server.tables == t0
      ensures tables.None? ==> server.submitted == s0
      ensures t0 <= server.tables
      ensures tables.Some? ==> server.tables <= t0 + Keys(tables.value)
      ensures tables.Some? && Keys(tables.value) <= t0 ==> Created(done) == []
      ensures failed == (f0 || server.tables != t0)
      ensures r.Ok? ==> tables.Some? && server.tables == t0 + Keys(tables.value)
      ensures r.Ok? ==> failed == (f0 || !(Keys(tables.value) <= t0))
      ensures r.Ok? ==> (r.value == NothingToDo <==> !failed)
      ensures tables.Some? && !Rerun(steps) && r.Ok? ==> first == PassRequests(tables.value, t0)
      ensures tables.Some? && !Rerun(steps) && r.Raised? ==> StrictPrefix(first, PassRequests(tables.value, t0))
      ensures tables.Some? && Rerun(steps) ==> StrictPrefix(first, PassRequests(tables.value, t0))
      ensures tables.Some? && Rerun(steps) && r.Ok? ==>
        second == PassRequests(tables.value, t0 + Elements(Created(first)))
      ensures tables.Some? && Rerun(steps) && r.Raised? ==>
        StrictPrefix(second, PassRequests(tables.value, t0 + Elements(Created(first))))
    {
      second, at := [], 0;
      if r0.Raised? && Retryable(r0.error) {
        r, steps, done, second, at := RetryEnsureTables(trace0, log0, s0, t0, f0, r0.error, first);
      } else {
        r, steps, done := r0, [Invoked(ErrorOf(r0))], first;
        if tables.Some? {
          AddingKeys(t0, Keys(tables.value));
        }
      }
      if tables.Some? && Keys(tables.value) <= t0 {
        ElementsEmpty(Created(done));
      }
    }

    /**
      The retry of `requires_connection` for `ensure_tables`, after a first
      run that raised `error`, a lost connection: reconnect, and when that
      succeeds run the pass once more from the tables the first run left.
      `trace0`, `log0`, `s0`, `t0` and `f0` are the trace, the log, the
      request count, the tables and the flag before the first run, and
      `first` the requests it carried out; the ensures give the effect of
      the whole call. `at` is the number of the reconnect's request.
    */
    method RetryEnsureTables(ghost trace0: seq<Step>, ghost log0: seq<Request>, ghost s0: nat, ghost t0: set<string>,
                             ghost f0: bool, ghost error: ErrorKind, ghost first: seq<Request>)
      returns (r: Outcome<Summary>, ghost steps: seq<Step>, ghost done: seq<Request>, ghost second: seq<Request>,
               ghost at: nat)
      requires Retryable(error) && trace == trace0 + [Invoked(Some(error))] && server.log == log0 + first
      requires s0 < server.submitted && server.fault(server.submitted - 1) == Some(error)
      requires tables.Some? && t0 <= server.tables <= t0 + Keys(tables.value)
      requires NoDuplicates(Created(first)) && Elements(Created(first)) == server.tables - t0
      requires failed == (f0 || server.tables != t0)
      modifies this`failed, this`conn, this`trace, server
      ensures trace == trace0 + steps && RetriedOnce(steps, ErrorOf(r))
      ensures conn == (if Rerun(steps) then server.connections else old(conn))
      ensures server.connections == old(server.connections) + (if Rerun(steps) then 1 else 0)
      ensures RetryScheduled(steps, server.fault, s0, at, server.submitted)
      ensures s0 < server.submitted
      ensures r.Raised? ==> s0 < server.submitted && server.fault(server.submitted - 1) == Some(r.error)
      ensures server.log == log0 + done
      ensures done == if Rerun(steps) then first + [OpenConnection(ip, user, password, database)] + second else first
      ensures NoDuplicates(Created(done)) && Elements(Created(done)) == server.tables - t0
      ensures t0 <= server.tables <= t0 + Keys(tables.value)
      ensures failed == (f0 || server.tables != t0)
      ensures r.Ok? ==> server.tables == t0 + Keys(tables.value)
      ensures r.Ok? ==> failed == (f0 || !(Keys(tables.value) <= t0)) && (r.value == NothingToDo <==> !failed)
      ensures !Rerun(steps) ==> r.Raised?
      ensures Rerun(steps) && r.Ok? ==> second == PassRequests(tables.value, t0 + Elements(Created(first)))
      ensures Rerun(steps) && r.Raised? ==> StrictPrefix(second, PassRequests(tables.value, t0 + Elements(Created(first))))
    {
      second, at := [], server.submitted;
      var err := Reconnect();
      if err.Some? {
        r := Raised(err.value);
        ConcatAssociative(trace0, [Invoked(Some(error))], [Reconnected(ErrorOf(r))]);
        steps, done := [Invoked(Some(error)), Reconnected(ErrorOf(r))], first;
      } else {
        ConcatAssociative(trace0, [Invoked(Some(error))], [Reconnected(None)]);
        r, steps, done, second := RerunEnsureTables(trace0, log0, s0, t0, f0, error, first, at);
      }
    }

    /**
      The second run of `ensure_tables` after a successful reconnect, from
      the tables the first run left; the ensures give the effect of the whole
      call, as for `RetryEnsureTables`.
    */
    method RerunEnsureTables(ghost trace0: seq<Step>, ghost log0: seq<Request>, ghost s0: nat, ghost t0: set<string>,
                             ghost f0: bool, ghost error: ErrorKind, ghost first: seq<Request>, ghost at: nat)
      returns (r: Outcome<Summary>, ghost steps: seq<Step>, ghost done: seq<Request>, ghost second: seq<Request>)
      requires trace == trace0 + [Invoked(Some(error)), Reconnected(None)]
      requires s0 < at && server.submitted == at + 1
      requires server.fault(at - 1) == Some(error) && server.fault(at) == None
      requires server.log == (log0 + first) + [OpenConnection(ip, user, password, database)]
      requires conn == server.connections
      requires tables.Some? && t0 <= server.tables <= t0 + Keys(tables.value)
      requires NoDuplicates(Created(first)) && Elements(Created(first)) == server.tables - t0
      requires failed == (f0 || server.tables != t0)
      modifies this`failed, this`trace, server
      ensures trace == trace0 + steps && steps == [Invoked(Some(error)), Reconnected(None), Invoked(ErrorOf(r))]
      ensures conn == server.connections && server.connections == old(server.connections)
      ensures RetryScheduled(steps, server.fault, s0, at, server.submitted)
      ensures s0 < server.submitted
      ensures r.Raised? ==> s0 < server.submitted && server.fault(server.submitted - 1) == Some(r.error)
      ensures server.log == log0 + done && done == first + [OpenConnection(ip, user, password, database)] + second
      ensures NoDuplicates(Created(done)) && Elements(Created(done)) == server.tables - t0
      ensures t0 <= server.tables <= t0 + Keys(tables.value)
      ensures failed == (f0 || server.tables != t0)
      ensures r.Ok? ==> server.tables == t0 + Keys(tables.value)
      ensures r.Ok? ==> failed == (f0 || !(Keys(tables.value) <= t0)) && (r.value == NothingToDo <==> !failed)
      ensures r.Ok? ==> second == PassRequests(tables.value, t0 + Elements(Created(first)))
      ensures r.Raised? ==> StrictPrefix(second, PassRequests(tables.value, t0 + Elements(Created(first))))
    {
      ghost var mid := server.tables;
      ghost var midFailed := failed;
      var open := [OpenConnection(ip, user, password, database)];
      r, second := RunEnsureTables();
      ConcatAssociative(trace0, [Invoked(Some(error)), Reconnected(None)], [Invoked(ErrorOf(r))]);
      steps := [Invoked(Some(error)), Reconnected(None), Invoked(ErrorOf(r))];
      ConcatAssociative(log0, first, open);
      ConcatAssociative(log0, first + open, second);
      done := first + open + second;
      assert Created(open) == [];
      RetryComposes(tables.value, first, open, second, t0, mid, server.tables, f0, midFailed, failed);
    }

    /** The undecorated `exec`: run the query with its parameters and normalise the fetched rows. */
    method RunExec(query: string, params: seq<Value>) returns (r: Outcome<SyncRows<Row>>)
      modifies this`trace, server
      ensures trace == old(trace) + [Invoked(ErrorOf(r))]
      ensures server.tables == old(server.tables) && server.connections == old(server.connections)
      ensures server.submitted == old(server.submitted) + 1 && ErrorOf(r) == server.fault(old(server.submitted))
      ensures r.Ok? ==> r.value == Normalize(server.answer(query, params))
      ensures r.Ok? ==> server.log == old(server.log) + [Query(query, params)]
      ensures r.Raised? ==> server.log == old(server.log)
    {
      var rows := server.Execute(query, params);
      if rows.Raised? {
        r := Raised(rows.error);
      } else {
        r := Ok(Normalize(rows.value));
      }
      trace := trace + [Invoked(ErrorOf(r))];
    }

    /**
      `exec` through `requires_connection`: the query runs once, or, after a
      lost connection and a successful reconnect, once more; `steps` are the
      wrapper's steps; each step is one request, and its error is the one the
      server's fault schedule gives that request. At most one successful
      `Query` request is logged: a
      run that raised is taken to have left the server as it was. On success
      the result is the normalised rows.
    */
    method Exec(query: string, params: seq<Value>) returns (r: Outcome<SyncRows<Row>>, ghost steps: seq<Step>)
      modifies this`conn, this`trace, server
      ensures trace == old(trace) + steps && RetriedOnce(steps, ErrorOf(r))
      ensures server.submitted == old(server.submitted) + |steps|
      ensures forall i | 0 <= i < |steps| :: steps[i].raised == server.fault(old(server.submitted) + i)
      ensures conn == (if Rerun(steps) then server.connections else old(conn))
      ensures server.tables == old(server.tables)
      ensures r.Ok? ==> r.value == Normalize(server.answer(query, params))
      ensures server.log == old(server.log)
                            + (if Rerun(steps) then [OpenConnection(ip, user, password, database)] else [])
                            + (if r.Ok? then [Query(query, params)] else [])
    {
      r := RunExec(query, params);
      if r.Raised? && Retryable(r.error) {
        ghost var first := r.error;
        var err := Reconnect();
        if err.Some? {
          r := Raised(err.value);
          ConcatAssociative(old(trace), [Invoked(Some(first))], [Reconnected(err)]);
          steps := [Invoked(Some(first)), Reconnected(err)];
        } else {
          r := RunExec(query, params);
          ConcatAssociative(old(trace), [Invoked(Some(first))], [Reconnected(None)]);
          ConcatAssociative(old(trace), [Invoked(Some(first)), Reconnected(None)], [Invoked(ErrorOf(r))]);
          steps := [Invoked(Some(first)), Reconnected(None), Invoked(ErrorOf(r))];
        }
      } else {
        steps := [Invoked(ErrorOf(r))];
      }
    }
  }
}
