/**
  The schema-ensure protocol shared by both facades: for each entry of the
  TABLES dictionary, in iteration order, ask whether the table exists and
  create it from its column definitions when it does not.
*/
module Schema {
  import opened Driver

  /** The TABLES dictionary: (table name, column definitions) in iteration order. */
  type TableDefs = seq<(string, string)>

  /** The summary line a completed pass logs. */
  datatype Summary = NothingToDo | SetupFinished

  function Keys(defs: TableDefs): set<string>
  {
    if defs == [] then {} else {defs[0].0} + Keys(defs[1..])
  }

  function Names(defs: TableDefs): seq<string>
  {
    if defs == [] then [] else [defs[0].0] + Names(defs[1..])
  }

  /** One existence check per table, and nothing else. */
  function ChecksOnly(defs: TableDefs): seq<Request>
  {
    if defs == [] then [] else [ExistenceCheck(defs[0].0)] + ChecksOnly(defs[1..])
  }

  /**
    The requests the loop carries out for one entry when the tables in
    `existing` exist: the existence check, then a create iff the table is absent.
  */
  function EntryRequests(entry: (string, string), existing: set<string>): seq<Request>
  {
    if entry.0 in existing then [ExistenceCheck(entry.0)]
    else [ExistenceCheck(entry.0), CreateStatement(entry.0, entry.1)]
  }

  /**
    The requests one complete pass carries out when the tables in `existing`
    exist at its start: each entry in turn, against the tables that existed
    at the start or were created earlier in the same pass.
  */
  function PassRequests(defs: TableDefs, existing: set<string>): seq<Request>
  {
    if defs == [] then []
    else EntryRequests(defs[0], existing) + PassRequests(defs[1..], existing + {defs[0].0})
  }

  /** The names of the tables created by `reqs`, in order. */
  function Created(reqs: seq<Request>): seq<string>
  {
    if reqs == [] then [] else (if reqs[0].CreateStatement? then [reqs[0].name] else []) + Created(reqs[1..])
  }

  /** The names whose existence `reqs` checked, in order. */
  function Checked(reqs: seq<Request>): seq<string>
  {
    if reqs == [] then [] else (if reqs[0].ExistenceCheck? then [reqs[0].name] else []) + Checked(reqs[1..])
  }

  /** No name occurs twice in `s`. */
  ghost predicate NoDuplicates(s: seq<string>)
  {
    s == [] || (s[0] !in s[1..] && NoDuplicates(s[1..]))
  }

  ghost function Elements(s: seq<string>): set<string>
  {
    set x | x in s
  }

  predicate StrictPrefix(a: seq<Request>, b: seq<Request>)
  {
    |a| < |b| && a == b[..|a|]
  }

  lemma {:induction false} RequestsConcat(a: seq<Request>, b: seq<Request>)
    ensures Created(a + b) == Created(a) + Created(b)
    ensures Checked(a + b) == Checked(a) + Checked(b)
  {
    if a == [] {
      assert a + b == b;
    } else {
      var c := a + b;
      assert c[0] == a[0] && c[1..] == a[1..] + b;
      RequestsConcat(a[1..], b);
      var created := if a[0].CreateStatement? then [a[0].name] else [];
      var checked := if a[0].ExistenceCheck? then [a[0].name] else [];
      ConcatAssociative(created, Created(a[1..]), Created(b));
      ConcatAssociative(checked, Checked(a[1..]), Checked(b));
    }
  }

  /** A pass checks every table of the dictionary exactly once, in iteration order. */
  lemma {:induction false} PassChecksEveryTable(defs: TableDefs, existing: set<string>)
    ensures Checked(PassRequests(defs, existing)) == Names(defs)
  {
    if defs != [] {
      var t := defs[0].0;
      RequestsConcat(EntryRequests(defs[0], existing), PassRequests(defs[1..], existing + {t}));
      PassChecksEveryTable(defs[1..], existing + {t});
      assert Checked(EntryRequests(defs[0], existing)) == [t];
    }
  }

  /** The tables a pass creates, unfolded by one entry. */
  lemma {:induction false} CreatedUnfold(defs: TableDefs, existing: set<string>)
    requires defs != []
    ensures Created(PassRequests(defs, existing))
      == (if defs[0].0 in existing then [] else [defs[0].0]) + Created(PassRequests(defs[1..], existing + {defs[0].0}))
  {
    RequestsConcat(EntryRequests(defs[0], existing), PassRequests(defs[1..], existing + {defs[0].0}));
    assert Created(EntryRequests(defs[0], existing)) == (if defs[0].0 in existing then [] else [defs[0].0]);
  }

  /**
    A pass creates exactly the tables of the dictionary that did not exist:
    none that existed and none outside the dictionary.
  */
  lemma {:induction false} PassCreatesMissing(defs: TableDefs, existing: set<string>)
    ensures Elements(Created(PassRequests(defs, existing))) == Keys(defs) - existing
  {
    if defs != [] {
      var t := defs[0].0;
      var rest := Created(PassRequests(defs[1..], existing + {t}));
      CreatedUnfold(defs, existing);
      PassCreatesMissing(defs[1..], existing + {t});
      if t in existing {
        assert [] + rest == rest;
        assert Keys(defs) - existing == Keys(defs[1..]) - (existing + {t});
      } else {
        assert Elements([t] + rest) == {t} + Elements(rest);
      }
    }
  }

  /**
    A pass creates each table at most once. The dictionary cannot repeat a
    key, but `TableDefs` admits repeated names, and the property holds for
    those too.
  */
  lemma {:induction false} PassCreatesEachOnce(defs: TableDefs, existing: set<string>)
    ensures NoDuplicates(Created(PassRequests(defs, existing)))
  {
    if defs != [] {
      var t := defs[0].0;
      var rest := Created(PassRequests(defs[1..], existing + {t}));
      CreatedUnfold(defs, existing);
      PassCreatesEachOnce(defs[1..], existing + {t});
      if t in existing {
        assert [] + rest == rest;
      } else {
        PassCreatesMissing(defs[1..], existing + {t});
        assert t !in Elements(rest);
        assert ([t] + rest)[1..] == rest;
      }
    }
  }

  /** Every create uses its dictionary entry's column definitions verbatim. */
  lemma {:induction false} PassCreatesVerbatim(defs: TableDefs, existing: set<string>)
    ensures forall r :: r in PassRequests(defs, existing) && r.CreateStatement? ==> (r.name, r.columns) in defs
  {
    if defs != [] {
      var next := existing + {defs[0].0};
      PassCreatesVerbatim(defs[1..], next);
      forall r | r in PassRequests(defs[1..], next) && r.CreateStatement?
        ensures (r.name, r.columns) in defs
      {
        assert (r.name, r.columns) in defs[1..];
      }
    }
  }

  /** A pass creates nothing exactly when every table of the dictionary already existed. */
  lemma {:induction false} PassCreatesNothingIffPresent(defs: TableDefs, existing: set<string>)
    ensures Created(PassRequests(defs, existing)) == [] <==> Keys(defs) <= existing
  {
    var c := Created(PassRequests(defs, existing));
    PassCreatesMissing(defs, existing);
    if c != [] {
      assert c[0] in Elements(c);
    } else {
      assert Elements(c) == {};
    }
  }

  /**
    When every table already exists, a pass is only existence checks. In
    particular a second pass after a completed one creates nothing.
  */
  lemma {:induction false} PassIdempotent(defs: TableDefs, existing: set<string>)
    ensures PassRequests(defs, existing + Keys(defs)) == ChecksOnly(defs)
  {
    PassWhenPresent(defs, existing + Keys(defs));
  }

  lemma {:induction false} PassWhenPresent(defs: TableDefs, existing: set<string>)
    requires Keys(defs) <= existing
    ensures PassRequests(defs, existing) == ChecksOnly(defs)
  {
    if defs != [] {
      assert existing + {defs[0].0} == existing;
      PassWhenPresent(defs[1..], existing);
    }
  }

  /** An empty sequence is the only one with no elements. */
  lemma {:induction false} ElementsEmpty(s: seq<string>)
    ensures Elements(s) == {} <==> s == []
  {
    if s != [] {
      assert s[0] in Elements(s);
    }
  }

  /** A concatenation has no duplicates iff its halves have none and share no element. */
  lemma {:induction false} NoDuplicatesConcat(a: seq<string>, b: seq<string>)
    ensures Elements(a + b) == Elements(a) + Elements(b)
    ensures NoDuplicates(a + b) <==> NoDuplicates(a) && NoDuplicates(b) && Elements(a) !! Elements(b)
  {
    if a == [] {
      assert a + b == b;
    } else {
      assert (a + b)[0] == a[0];
      assert (a + b)[1..] == a[1..] + b;
      NoDuplicatesConcat(a[1..], b);
      assert Elements(a) == {a[0]} + Elements(a[1..]);
    }
  }

  /**
    Part of a pass: once `done` has been carried out and the entries `rest`
    remain, each table was created at most once, and the tables created are
    exactly those that exist now and did not at the start.
  */
  lemma {:induction false} PrefixCreates(defs: TableDefs, before: set<string>, done: seq<Request>, rest: TableDefs, tables: set<string>)
    requires before <= tables && tables + Keys(rest) == before + Keys(defs)
    requires PassRequests(defs, before) == done + PassRequests(rest, tables)
    ensures NoDuplicates(Created(done))
    ensures Elements(Created(done)) == tables - before
  {
    PassCreatesMissing(defs, before);
    PassCreatesMissing(rest, tables);
    PassCreatesEachOnce(defs, before);
    RequestsConcat(done, PassRequests(rest, tables));
    NoDuplicatesConcat(Created(done), Created(PassRequests(rest, tables)));
  }

  /** An entry whose requests were cut short by an error created nothing. */
  lemma {:induction false} AbortedEntryCreatesNothing(part: seq<Request>, entry: (string, string), existing: set<string>)
    requires StrictPrefix(part, EntryRequests(entry, existing))
    ensures Created(part) == []
  {
    assert part == [] || part == [ExistenceCheck(entry.0)];
  }

  /**
    Two runs one after the other, with requests in between that create
    nothing: the tables created are still each created at most once, and
    are exactly those new at the end.
  */
  lemma {:induction false} CreatesCompose(first: seq<Request>, between: seq<Request>, second: seq<Request>,
                       t0: set<string>, t1: set<string>, t2: set<string>)
    requires Created(between) == [] && t0 <= t1 <= t2
    requires NoDuplicates(Created(first)) && Elements(Created(first)) == t1 - t0
    requires NoDuplicates(Created(second)) && Elements(Created(second)) == t2 - t1
    ensures t1 == t0 + Elements(Created(first))
    ensures NoDuplicates(Created(first + between + second))
    ensures Elements(Created(first + between + second)) == t2 - t0
  {
    RequestsConcat(first, between);
    RequestsConcat(first + between, second);
    assert Created(first + between) == Created(first);
    NoDuplicatesConcat(Created(first), Created(second));
  }

  /**
    A completed loop step keeps the loop's account of the whole pass: the
    entry's requests extend what was done, and its table now exists.
  */
  lemma {:induction false} PassStep(defs: TableDefs, before: set<string>, pass: seq<Request>, done: seq<Request>, rest: TableDefs,
                 tables: set<string>, part: seq<Request>, now: set<string>)
    requires rest != [] && before <= tables && tables + Keys(rest) == before + Keys(defs)
    requires pass == done + PassRequests(rest, tables)
    requires part == EntryRequests(rest[0], tables)
    requires now == if rest[0].0 in tables then tables else tables + {rest[0].0}
    ensures now == tables + {rest[0].0}
    ensures before <= now && now + Keys(rest[1..]) == before + Keys(defs)
    ensures pass == (done + part) + PassRequests(rest[1..], now)
  {
    ConcatAssociative(done, part, PassRequests(rest[1..], now));
  }

  /** The loop's account of a pass once no entry remains. */
  lemma {:induction false} PassCompleted(defs: TableDefs, before: set<string>, done: seq<Request>, tables: set<string>)
    requires before <= tables && tables == before + Keys(defs)
    requires PassRequests(defs, before) == done + PassRequests([], tables)
    ensures done == PassRequests(defs, before)
    ensures NoDuplicates(Created(done))
    ensures Elements(Created(done)) == tables - before
  {
    assert done + PassRequests([], tables) == done;
    PrefixCreates(defs, before, done, [], tables);
  }

  /**
    A pass cut short by an error in the middle of an entry: what was carried
    out is a strict prefix of the pass, and it created each table at most
    once, exactly the tables that are new.
  */
  lemma {:induction false} PassAborted(defs: TableDefs, before: set<string>, done: seq<Request>, rest: TableDefs,
                    tables: set<string>, part: seq<Request>)
    requires rest != [] && before <= tables && tables + Keys(rest) == before + Keys(defs)
    requires PassRequests(defs, before) == done + PassRequests(rest, tables)
    requires StrictPrefix(part, EntryRequests(rest[0], tables))
    ensures StrictPrefix(done + part, PassRequests(defs, before))
    ensures NoDuplicates(Created(done + part))
    ensures Elements(Created(done + part)) == tables - before
  {
    var entry, later := EntryRequests(rest[0], tables), PassRequests(rest[1..], tables + {rest[0].0});
    assert PassRequests(rest, tables) == entry + later;
    ConcatAssociative(done, entry, later);
    StrictPrefixExtend(done, part, entry, later);
    PrefixCreates(defs, before, done, rest, tables);
    AbortedEntryCreatesNothing(part, rest[0], tables);
    RequestsConcat(done, part);
    assert Created(done + part) == Created(done);
  }

  /**
    Two runs one after the other, each adding some of `keys` to the tables
    and each setting the sticky flag when it added one: together they add
    some of `keys`, and the flag is set iff the tables changed.
  */
  lemma {:induction false} RunsCompose(keys: set<string>, t0: set<string>, t1: set<string>, t2: set<string>, f0: bool, f1: bool, f2: bool)
    requires t0 <= t1 <= t0 + keys && t1 <= t2 <= t1 + keys
    requires f1 == (f0 || t1 != t0) && f2 == (f1 || t2 != t1)
    ensures t0 <= t2 <= t0 + keys
    ensures f2 == (f0 || t2 != t0)
  {
    if t2 == t0 {
      assert t1 == t0;
    }
  }

  /**
    A failed run, requests that create nothing, and a second run over the
    same dictionary, composed: each table is still created at most once,
    exactly the new ones are, the flag is set iff the tables changed, and a
    second run that completes leaves every table of the dictionary present.
  */
  lemma {:induction false} RetryComposes(defs: TableDefs, first: seq<Request>, between: seq<Request>, second: seq<Request>,
                                         t0: set<string>, t1: set<string>, t2: set<string>, f0: bool, f1: bool, f2: bool)
    requires Created(between) == []
    requires t0 <= t1 <= t0 + Keys(defs) && t1 <= t2 <= t1 + Keys(defs)
    requires NoDuplicates(Created(first)) && Elements(Created(first)) == t1 - t0
    requires NoDuplicates(Created(second)) && Elements(Created(second)) == t2 - t1
    requires f1 == (f0 || t1 != t0) && f2 == (f1 || t2 != t1)
    ensures t1 == t0 + Elements(Created(first))
    ensures NoDuplicates(Created(first + between + second)) && Elements(Created(first + between + second)) == t2 - t0
    ensures t0 <= t2 <= t0 + Keys(defs) && f2 == (f0 || t2 != t0)
    ensures t2 == t1 + Keys(defs) ==> t2 == t0 + Keys(defs) && f2 == (f0 || !(Keys(defs) <= t0))
  {
    CreatesCompose(first, between, second, t0, t1, t2);
    RunsCompose(Keys(defs), t0, t1, t2, f0, f1, f2);
    AddingKeys(t0, Keys(defs));
  }

  /** Adding the keys changes the tables exactly when some key was missing. */
  lemma {:induction false} AddingKeys(existing: set<string>, keys: set<string>)
    ensures existing + keys != existing <==> !(keys <= existing)
  {
    if !(keys <= existing) {
      var k :| k in keys && k !in existing;
      assert k in existing + keys;
    }
  }

  lemma {:induction false} ConcatAssociative<T>(a: seq<T>, b: seq<T>, c: seq<T>)
    ensures a + (b + c) == (a + b) + c
  {
  }

  lemma {:induction false} StrictPrefixExtend(done: seq<Request>, part: seq<Request>, entry: seq<Request>, rest: seq<Request>)
    requires StrictPrefix(part, entry)
    ensures StrictPrefix(done + part, done + entry + rest)
  {
    assert (done + entry + rest)[..|done + part|] == done + entry[..|part|];
  }

  /**
    The body of the `ensure_tables` loop for one entry: check whether the
    table exists and create it when it does not. The requests carried out,
    `part`, are the entry's requests, or a strict prefix of them on an error.
  */
  method EnsureEntry(server: Server, entry: (string, string))
    returns (created: bool, err: Option<ErrorKind>, ghost part: seq<Request>)
    modifies server
    ensures server.connections == old(server.connections) && server.submitted > old(server.submitted)
    ensures created <==> err.None? && entry.0 !in old(server.tables)
    ensures server.tables == if created then old(server.tables) + {entry.0} else old(server.tables)
    ensures err.Some? ==> server.fault(server.submitted - 1) == err
    ensures server.log == old(server.log) + part
    ensures err.None? ==> part == EntryRequests(entry, old(server.tables))
    ensures err.Some? ==> StrictPrefix(part, EntryRequests(entry, old(server.tables)))
  {
    var (table, columns) := entry;
    created, part := false, [];
    var ret := server.ShowTables(table);
    if ret.Raised? {
      return false, Some(ret.error), [];
    }
    part := [ExistenceCheck(table)];
    if ret.value == 0 {
      err := server.CreateTable(table, columns);
      created := err.None?;
      if created {
        part := part + [CreateStatement(table, columns)];
      }
    } else {
      err := None;
    }
  }

  /**
    One run of the `ensure_tables` loop against `server`, starting with the
    instance's `failed` flag. It returns the new flag and either the summary
    of a completed pass or the error of the request that aborted it; `done`
    is the requests carried out. The flag is sticky: it ends true iff it was
    true or this run created a table.
  */
  method EnsurePass(server: Server, defs: TableDefs, failed: bool)
    returns (nowFailed: bool, r: Outcome<Summary>, ghost done: seq<Request>)
    modifies server
    ensures server.connections == old(server.connections) && old(server.submitted) <= server.submitted
    ensures old(server.tables) <= server.tables <= old(server.tables) + Keys(defs)
    ensures nowFailed == (failed || server.tables != old(server.tables))
    ensures server.log == old(server.log) + done
    ensures r.Ok? ==> server.tables == old(server.tables) + Keys(defs)
    ensures r.Ok? ==> done == PassRequests(defs, old(server.tables))
    ensures r.Ok? ==> nowFailed == (failed || !(Keys(defs) <= old(server.tables)))
    ensures r.Ok? ==> (r.value == NothingToDo <==> !nowFailed)
    ensures r.Raised? ==> server.submitted > old(server.submitted) && server.fault(server.submitted - 1) == Some(r.error)
    ensures r.Raised? ==> StrictPrefix(done, PassRequests(defs, old(server.tables)))
    ensures NoDuplicates(Created(done))
    ensures Elements(Created(done)) == server.tables - old(server.tables)
  {
    var err;
    nowFailed, err, done := EnsureEach(server, defs, failed);
    r := if err.Some? then Raised(err.value) else Ok(if nowFailed then SetupFinished else NothingToDo);
  }

  /**
    The `ensure_tables` loop proper: each entry in turn, until the first
    request that raises. `done` is the requests carried out.
  */
  method EnsureEach(server: Server, defs: TableDefs, failed: bool)
    returns (nowFailed: bool, err: Option<ErrorKind>, ghost done: seq<Request>)
    modifies server
    ensures server.connections == old(server.connections) && old(server.submitted) <= server.submitted
    ensures old(server.tables) <= server.tables <= old(server.tables) + Keys(defs)
    ensures nowFailed == (failed || server.tables != old(server.tables))
    ensures server.log == old(server.log) + done
    ensures NoDuplicates(Created(done))
    ensures Elements(Created(done)) == server.tables - old(server.tables)
    ensures err.None? ==> server.tables == old(server.tables) + Keys(defs) && done == PassRequests(defs, old(server.tables))
    ensures err.Some? ==> server.submitted > old(server.submitted) && server.fault(server.submitted - 1) == err
    ensures err.Some? ==> StrictPrefix(done, PassRequests(defs, old(server.tables)))
  {
    nowFailed := failed;
    ghost var before := server.tables;
    done := [];
    var rest := defs;
    while rest != []
      invariant server.connections == old(server.connections)
      invariant server.submitted >= old(server.submitted)
      invariant before <= server.tables
      invariant server.tables + Keys(rest) == before + Keys(defs)
      invariant server.log == old(server.log) + done
      invariant PassRequests(defs, before) == done + PassRequests(rest, server.tables)
      invariant nowFailed == (failed || server.tables != before)
    {
      nowFailed, err, done := EnsureNext(server, defs, failed, before, old(server.log), old(server.submitted), done, rest, nowFailed);
      if err.Some? {
        return;
      }
      rest := rest[1..];
    }
    PassCompleted(defs, before, done, server.tables);
    err := None;
  }

  /**
    One iteration of the loop in `EnsureEach`, for the entry `rest[0]`, with
    the bookkeeping of the whole run: `before`, `log0` and `s0` are the
    tables, the log and the request count at the start of the run, and
    `done` the requests carried out so far. On success the loop invariant
    holds for the remaining entries; on an error the run ends as stated by
    `EnsureEach`.
  */
  method EnsureNext(server: Server, defs: TableDefs, failed: bool, ghost before: set<string>, ghost log0: seq<Request>,
                    ghost s0: nat, ghost done: seq<Request>, rest: TableDefs, nowFailed: bool)
    returns (stillFailed: bool, err: Option<ErrorKind>, ghost doneNext: seq<Request>)
    requires rest != [] && s0 <= server.submitted
    requires before <= server.tables && server.tables + Keys(rest) == before + Keys(defs)
    requires server.log == log0 + done
    requires PassRequests(defs, before) == done + PassRequests(rest, server.tables)
    requires nowFailed == (failed || server.tables != before)
    modifies server
    ensures server.connections == old(server.connections) && s0 <= server.submitted
    ensures before <= server.tables && stillFailed == (failed || server.tables != before)
    ensures server.log == log0 + doneNext
    ensures err.None? ==> server.tables + Keys(rest[1..]) == before + Keys(defs)
    ensures err.None? ==> PassRequests(defs, before) == doneNext + PassRequests(rest[1..], server.tables)
    ensures err.Some? ==> server.tables <= before + Keys(defs)
    ensures err.Some? ==> NoDuplicates(Created(doneNext)) && Elements(Created(doneNext)) == server.tables - before
    ensures err.Some? ==> s0 < server.submitted && server.fault(server.submitted - 1) == err
    ensures err.Some? ==> StrictPrefix(doneNext, PassRequests(defs, before))
  {
    ghost var tables := server.tables;
    var created;
    ghost var part;
    created, err, part := EnsureEntry(server, rest[0]);
    ConcatAssociative(log0, done, part);
    doneNext := done + part;
    stillFailed := nowFailed;
    if err.Some? {
      PassAborted(defs, before, done, rest, tables, part);
      return;
    }
    if created {
      if !stillFailed {
        stillFailed := true;
      }
    }
    PassStep(defs, before, PassRequests(defs, before), done, rest, tables, part, server.tables);
  }
}
