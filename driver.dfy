/**
  The world outside the access layer: the MySQL server reached through the
  pymysql/aiomysql driver. Every driver request is an oracle: the server's
  fault schedule decides whether the n-th request raises, and the answer
  function decides which rows a query fetches. A request that raises has no
  effect on the server; a request that succeeds is appended to the log.
*/
module Driver {

  datatype Option<+T> = None | Some(value: T)

  /**
    The driver's exception classes (pymysql.err), plus Python's AttributeError,
    which the access layer raises itself when TABLES or the pool is missing.
    The fault schedule ranges over all of them, so a driver request may also
    be scheduled to raise AttributeError; no property here depends on which
    class a driver request raises.
  */
  datatype ErrorKind =
    | OperationalError
    | InterfaceError
    | ProgrammingError
    | IntegrityError
    | DataError
    | InternalError
    | NotSupportedError
    | AttributeError

  /** A call that either returns a value or raises an error of some class. */
  datatype Outcome<+T> = Ok(value: T) | Raised(error: ErrorKind)

  /** The error an outcome raised, if any. */
  function ErrorOf<T>(r: Outcome<T>): Option<ErrorKind>
  {
    if r.Raised? then Some(r.error) else None
  }

  datatype Value = NullValue | IntValue(i: int) | TextValue(s: string)

  /** A row as the dictionary cursor returns it: column name to value. */
  type Row = map<string, Value>

  /** A request the server carried out. */
  datatype Request =
    | OpenConnection(host: string, user: string, password: string, database: string)
    | ExistenceCheck(name: string)
    | CreateStatement(name: string, columns: string)
    | Query(sql: string, params: seq<Value>)

  class Server {
    /** The tables that exist in the database. */
    var tables: set<string>
    /** How many connections (or pools) have been opened so far. */
    var connections: nat
    /** How many requests have been submitted, successful or not. */
    var submitted: nat
    /** The requests carried out, in order. */
    var log: seq<Request>
    /** What the n-th submitted request raises, if anything. */
    const fault: nat -> Option<ErrorKind>
    /** The rows a query with these parameters fetches. */
    const answer: (string, seq<Value>) -> seq<Row>

    constructor (tables: set<string>, fault: nat -> Option<ErrorKind>, answer: (string, seq<Value>) -> seq<Row>)
      ensures this.tables == tables && this.fault == fault && this.answer == answer
      ensures connections == 0 && submitted == 0 && log == []
    {
      this.tables := tables;
      this.fault := fault;
      this.answer := answer;
      connections := 0;
      submitted := 0;
      log := [];
    }

    /** Opens a connection (or a pool); on success returns its generation number. */
    method Connect(host: string, user: string, password: string, database: string) returns (r: Outcome<nat>)
      modifies this
      ensures submitted == old(submitted) + 1 && tables == old(tables)
      ensures ErrorOf(r) == fault(old(submitted))
      ensures r.Ok? ==> r.value == connections == old(connections) + 1
      ensures r.Ok? ==> log == old(log) + [OpenConnection(host, user, password, database)]
      ensures r.Raised? ==> connections == old(connections) && log == old(log)
    {
      var f := fault(submitted);
      submitted := submitted + 1;
      if f.Some? {
        r := Raised(f.value);
      } else {
        connections := connections + 1;
        log := log + [OpenConnection(host, user, password, database)];
        r := Ok(connections);
      }
    }

    /** `show tables like name`, read as an exact-name match: the number of matching tables. */
    method ShowTables(name: string) returns (r: Outcome<nat>)
      modifies this
      ensures submitted == old(submitted) + 1
      ensures tables == old(tables) && connections == old(connections)
      ensures ErrorOf(r) == fault(old(submitted))
      ensures r.Ok? ==> r.value == (if name in tables then 1 else 0)
      ensures r.Ok? ==> log == old(log) + [ExistenceCheck(name)]
      ensures r.Raised? ==> log == old(log)
    {
      var f := fault(submitted);
      submitted := submitted + 1;
      if f.Some? {
        r := Raised(f.value);
      } else {
        log := log + [ExistenceCheck(name)];
        r := Ok(if name in tables then 1 else 0);
      }
    }

    /**
      `create table name(columns)`. Creating a table that already exists is
      never asked for: callers must prove the table absent.
    */
    method CreateTable(name: string, columns: string) returns (err: Option<ErrorKind>)
      requires name !in tables
      modifies this
      ensures submitted == old(submitted) + 1 && connections == old(connections)
      ensures err == fault(old(submitted))
      ensures err.None? ==> tables == old(tables) + {name} && log == old(log) + [CreateStatement(name, columns)]
      ensures err.Some? ==> tables == old(tables) && log == old(log)
    {
      err := fault(submitted);
      submitted := submitted + 1;
      if err.None? {
        tables := tables + {name};
        log := log + [CreateStatement(name, columns)];
      }
    }

    /** A parameterised query followed by fetchall: the rows it fetched. */
    method Execute(sql: string, params: seq<Value>) returns (r: Outcome<seq<Row>>)
      modifies this
      ensures submitted == old(submitted) + 1
      ensures tables == old(tables) && connections == old(connections)
      ensures ErrorOf(r) == fault(old(submitted))
      ensures r.Ok? ==> r.value == answer(sql, params) && log == old(log) + [Query(sql, params)]
      ensures r.Raised? ==> log == old(log)
    {
      var f := fault(submitted);
      submitted := submitted + 1;
      if f.Some? {
        r := Raised(f.value);
      } else {
        log := log + [Query(sql, params)];
        r := Ok(answer(sql, params));
      }
    }
  }
}
