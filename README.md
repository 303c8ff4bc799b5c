# db_utils: a verified model of a small MySQL access layer

The repository offers two facades over a MySQL database. `db` (db.py) holds one
persistent pymysql connection, opened when the object is built. `async_db`
(async_db.py) holds an aiomysql pool, created only when `connect` is called.
Both offer `ensure_tables`, which creates every table of the `TABLES`
dictionary that does not yet exist, and `exec`, which runs a parameterised
query and normalises the fetched rows. In `db`, both operations run through
the `requires_connection` wrapper. When the wrapped call raises
`OperationalError` or `InterfaceError`, the wrapper reconnects once and calls
again once. In `async_db`, the wrapper checks a connection out of the pool and
calls exactly once.

The model is split into these modules:

- `Driver` (driver.dfy) models the world outside the layer. A `Server` class
  holds the set of existing tables, a count of opened connections and a log
  of the requests it carried out. Every driver request is an oracle. The
  server's `fault` function decides whether the n-th submitted request raises,
  and of which error class. Its `answer` function decides which rows a query
  fetches. A request that raises has no effect.
- `Config` (config.dfy) holds the host defaulting shared by both constructors.
- `Results` (results.dfy) holds the two `exec` normalisations and how they relate.
- `Retry` (retry.dfy) describes both `requires_connection` wrappers as
  predicates over the steps one call takes. A step is a run of the wrapped
  operation or a reconnect, each with the error it raised.
- `Schema` (schema.dfy) holds the `ensure_tables` loop, which both files share.
  `PassRequests` is the reference definition of a complete pass. The lemmas
  state coverage, no re-creation and idempotence for it. `EnsureEach` is the
  imperative loop, proved against `PassRequests`, with one entry per
  `EnsureNext` step, and `EnsurePass` adds the summary.
- `Sync` (db.dfy) models class `db` as `Db`. Its fields are `tables`,
  `failed` and `conn`, where `conn` is the connection's generation number. It
  also has a ghost trace of wrapper steps. Each decorated method is the
  wrapper written out around its undecorated body (`RunEnsureTables`,
  `RunExec`). What `ensure_tables` does after its first run
  (`FinishEnsureTables`) is split into the reconnect (`RetryEnsureTables`)
  and the second pass (`RerunEnsureTables`).
- `Async` (async_db.dfy) models class `async_db` as `AsyncDb`. Its `pool` is
  None until `Connect` succeeds. `tables` becomes None when a completed pass
  deletes `TABLES`.

`Server.CreateTable` requires that the table be absent. So "a table that
already exists is never created again" is checked at every call site,
including in the second pass after a retry.

A second `ensure_tables` on `async_db` is not a no-op. The first completed
pass deletes `TABLES` (async_db.py:58), so the second call raises
`AttributeError` before it sends any request.

For the synchronous `ensure_tables`, a lost connection in the middle of a pass
leads to a reconnect and a second pass, which starts from the tables the first
pass left. The model states the whole effect of such a call. Its requests are
the first pass's strict prefix, the reconnect and the second pass. Together
they create each table at most once, and they create exactly the tables that
were added.

## Model

| member | source | states |
|---|---|---|
| Config.DefaultHost | db.py:7-10 | a falsy ip (absent or empty) gives "localhost", any other ip is kept, and the host is never empty |
| Results.Normalize | db.py:77-81 | no rows gives None, exactly one row gives that bare row, two or more rows give the row sequence unchanged |
| Results.NormalizeRoundTrip | db.py:79-81 | the rows fetched can be recovered exactly from the synchronous result, so unwrapping loses only the shape |
| Results.NormalizeInjective | db.py:79-81 | two fetches whose synchronous results are equal fetched the same rows |
| Results.NormalizeAsync | async_db.py:76-78 | no rows gives None, otherwise the full row sequence, never unwrapped, even for one row |
| Results.NormalizeAsyncRoundTrip | async_db.py:78 | the rows fetched can be recovered exactly from the pooled result |
| Results.NormalizeVariantsAgree | db.py:79-81 | the two facades agree on which results are empty and on the rows; they differ in shape exactly on one-row results |
| Retry.RetriedOnce | db.py:21-27 | the synchronous wrapper's steps: a first run; after a retryable error, a reconnect; after a successful reconnect, a second run. The call raises the error of its last step, and every step before the last is a run that raised a retryable error or a reconnect that succeeded |
| Retry.CalledOnce | async_db.py:34-41 | the pooled wrapper's steps: without a pool, AttributeError and no run; with a pool, exactly one run, whose error is the call's error; never a reconnect |
| Retry.RetryBounded | db.py:18-28 | one wrapped call runs the operation once or twice and reconnects at most once; it reconnects iff the first run raised OperationalError or InterfaceError, and runs twice iff that reconnect succeeded |
| Retry.RetryFirstRunDecides | db.py:21-24 | a first run that succeeds or raises any other error class is the whole call, with no reconnect; a retryable first error is followed by a reconnect |
| Retry.RetryResultIsLastStep | db.py:24-27 | the call raises the error of its last step, so an error of the reconnect or of the second run propagates with no further loop; it succeeds only if its last run succeeded |
| Retry.CalledOnceNeverRetries | async_db.py:34-41 | the pooled wrapper runs the operation exactly once (never without a pool) and never reconnects |
| Schema.EntryRequests | db.py:34-38 | the requests of one entry when the given tables exist: the existence check, then the create with the entry's own columns iff the table is absent (a definition; the Pass lemmas below state what it implies for a pass) |
| Schema.PassRequests | db.py:33-38 | the reference definition of a complete pass: each entry's requests in dictionary order, each against the tables that existed at the start or were created earlier in the pass (a definition; the Pass lemmas below state its properties) |
| Schema.PassChecksEveryTable | db.py:33-34 | a pass issues one existence check per entry of TABLES, in iteration order; an empty dictionary means no checks |
| Schema.PassCreatesMissing | db.py:33-38 | a pass creates exactly the keys of TABLES that did not exist: none that existed and none outside TABLES |
| Schema.PassCreatesEachOnce | db.py:33-38 | a pass creates each table at most once; this holds for any sequence of entries, including ones with repeated names, which the dictionary itself cannot have |
| Schema.PassCreatesVerbatim | db.py:38 | every create uses the column definitions of its own TABLES entry |
| Schema.PassCreatesNothingIffPresent | db.py:35-40 | a pass creates nothing iff every key of TABLES already existed |
| Schema.PassIdempotent | db.py:33-38 | after a completed pass, a second pass is only existence checks, one per entry, and creates nothing |
| Schema.PassWhenPresent | db.py:34-35 | when every key of TABLES exists, a pass consists of existence checks only |
| Schema.EnsureEntry | db.py:34-38 | one loop step: the table is created iff both requests succeed and it was absent; the requests carried out are the entry's check and optional create, or a strict prefix of them when a request raises |
| Schema.PrefixCreates | db.py:33-38 | the requests of a pass up to any entry create each table at most once, and create exactly the tables added so far |
| Schema.CreatesCompose | db.py:24-27 | two runs separated by requests that create nothing: if each run creates each of its tables once, exactly the tables it added, then so do the runs together |
| Schema.EnsureEach | db.py:33-40 | the loop over the entries, stopping at the first request that raises: on completion the tables are the old tables plus the keys of TABLES and the requests are exactly PassRequests; on an error they are a strict prefix of it, and the error is the one scheduled for the last request submitted; in both cases each table is created at most once, and the tables created are exactly those added; failed ends true iff it was true or a table was created |
| Schema.EnsureNext | db.py:33-40 | one step of the loop: it keeps the loop's account (the tables grow only by keys of TABLES, the requests so far followed by the rest of the pass give PassRequests, failed is true iff it was or the tables changed); on an error the requests are a strict prefix of PassRequests, the error is the one scheduled for the last request submitted, and each table was created at most once, exactly the added ones |
| Schema.EnsurePass | db.py:33-44 | the pass as in EnsureEach, with the summary: the "nothing to do" summary is chosen iff failed is false, and an error propagates |
| Sync.Db.constructor | db.py:6-14 | the fields hold the given credentials, host and TABLES, and failed is false |
| Sync.Db.Open | db.py:5-16 | the host is defaulted, failed starts false and one connection is opened to the defaulted host; a connect error propagates and no object results |
| Sync.Db.Reconnect | db.py:50-51 | only conn changes, to a freshly opened connection; failed, TABLES, ip, user and database are unchanged; a connect error propagates and conn stays |
| Sync.Db.RunEnsureTables | db.py:31-44 | one pass over TABLES as in EnsurePass, updating failed: the requests are the whole pass on success and a strict prefix of it on an error, each table is created at most once, and exactly the added tables are created; an error is the one the server's fault schedule gives the last request submitted; AttributeError with no request when TABLES is None |
| Sync.Db.EnsureTables | db.py:18-44 | the retry policy of RetriedOnce, with every step's error taken from the server's fault schedule: the first run failed on the request just before the reconnect's, the reconnect's error is the one scheduled for its request, and the call's error is the one scheduled for the last request submitted (so with no faults scheduled the call succeeds); conn changes and one connection is opened iff a reconnect succeeded; the requests are the first pass, and after a successful reconnect the reconnect and a second pass; the first pass is whole unless there was a retry, the second pass is the pass from the tables the first left, whole on success and a strict prefix on an error; over the whole call each table is created at most once, exactly the added tables are created, and nothing is created when every key existed; on success every key exists, and failed is true iff it was or a key was missing at the start |
| Sync.Db.FinishEnsureTables | db.py:21-27 | what the wrapper does once the first run of `ensure_tables` has ended: a retryable error leads to the retry of RetryEnsureTables, any other outcome is the call's result with no further request; the ensures give the effect of the whole call as stated for EnsureTables |
| Sync.Db.RetryEnsureTables | db.py:24-27 | after a first pass that lost the connection on a scheduled fault: the reconnect is the next request and its error is the one scheduled for it; a failed reconnect ends the call with that error and changes nothing more; otherwise the effect of the whole call is as stated for EnsureTables |
| Sync.Db.RerunEnsureTables | db.py:26-27 | the second pass after a successful reconnect: no further connection is opened, the log gains the reconnect and the second pass, which starts from the tables the first pass left, and the two passes together create each table once, exactly the added ones; an error is the one scheduled for the last request submitted |
| Schema.RetryComposes | db.py:24-27 | a first pass, a reconnect that creates nothing, and a second pass from where the first stopped: together they create each table at most once, exactly the added ones, and failed ends true iff the tables changed; a completed second pass leaves every key of TABLES existing |
| Sync.Db.RunExec | db.py:64-81 | one query request; on success the result is Normalize of the fetched rows |
| Sync.Db.Exec | db.py:63-81 | the retry policy of RetriedOnce; each step is one request, and its error is the one the server's fault schedule gives that request (so with no faults scheduled the call succeeds at once); on success the result is Normalize of the rows; at most one successful Query request is logged, after at most one reconnect (a run that raised is taken to have left the server as it was, see Left out) |
| Async.AsyncDb.constructor | async_db.py:23-31 | the host is defaulted, failed is false, no pool exists and no request is sent |
| Async.AsyncDb.Connect | async_db.py:60-62 | on success pool holds a freshly opened pool to the defaulted host; a connect error propagates and pool stays |
| Async.AsyncDb.EnsureTables | async_db.py:43-58 | the single-call policy of CalledOnce; without a pool or TABLES, AttributeError with no request; otherwise the requests are the whole pass on success and a strict prefix of it on an error, the error being the one scheduled for the last request submitted; each table is created at most once and exactly the added tables are created; a completed pass deletes TABLES and has the same effect on tables and failed as in the synchronous variant; an aborted pass keeps TABLES |
| Async.AsyncDb.Exec | async_db.py:64-78 | the single-call policy of CalledOnce; without a pool, AttributeError and no request; on success the result is NormalizeAsync of the fetched rows |

## Left out

- Connection internals are not modelled. The charset, the dictionary cursor class, autocommit and the cursor objects are pymysql and aiomysql details (db.py:53-61, async_db.py:62). A connection or pool is only a generation number, and opening one is one request that may fail.
- Pool acquire and release, `async with` scoping and `await` suspension are not modelled. Each pooled call is one atomic step, and checking a connection out of an existing pool never fails.
- Logging is left out, since it is a write-only side channel. The only exception is the summary line of `ensure_tables`, which is modelled as the returned `Summary` value.
- SQL semantics are not modelled. `show tables like '<name>'` is a LIKE pattern, so `_` and `%` in a table name are wildcards. The model reads it as exact membership and returns a match count of 0 or 1. The text of the CREATE statement is opaque: the request carries only the table name and column definitions.
- pymysql's mapping of MySQL error codes onto exception classes is not modelled. The server's fault oracle picks the class directly, and only OperationalError and InterfaceError are retryable.
- The comparison `row != "()"` is not modelled, because it never matches a row sequence. Normalisation tests only for an empty result.
- A request that raises is assumed to have had no effect on the server. So a query that the server applied before the connection dropped, and then ran again by the sync retry, is not captured.
- Queries run through `exec` are assumed not to change the table set. Their rows depend only on the query text and parameters.
- Concurrent use and races are not modelled. Two callers running `ensure_tables` at the same time could both see a table as missing. The model is sequential, and `Server.CreateTable` requires an absent table.
- `TABLES` set to None and `TABLES` deleted are one value, None. Both raise AttributeError, and nothing in the core tells them apart. For None the error comes from `.items()`. For the deleted attribute it comes from reading `self.TABLES` itself, because `async_db` declares `__slots__` (async_db.py:7).
- Of Python's falsy values for `ip`, only None and the empty string are modelled.
- The `logger` attribute is not modelled. The stored password `p` is the `password` field.
