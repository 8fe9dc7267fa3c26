/** Start-up and shutdown: who owns the opened databases, and when they are closed. */
module Lifecycle {
  import opened Wrappers
  import opened Errors
  import Domain
  import Answers
  import Config
  import HttpApi
  import Service
  import Statements

  /** What the outside world sees, in order.  Databases are numbered in opening order: Hive,
      Trino, StarRocks. */
  datatype Event =
    | Opened(db: nat)
    | Closed(db: nat)
    | Listened
    | ShutdownReturned(window: int)   // after at most the given time
    | ServeReturned

  class Journal {
    var events: seq<Event>

    constructor ()
      ensures events == []
    {
      events := [];
    }
  }

  /** How every outside operation turns out.  `serve` is Serve's result with "server closed"
      counted as none; `signal` says which branch the select takes; `serveFirst` whether Serve
      returned before Shutdown did. */
  datatype Outcomes = Outcomes(
    open: nat -> Option<Error>,
    close: nat -> Option<Error>,
    ping: Option<Error>,
    listen: Option<Error>,
    shutdown: Option<Error>,
    serve: Option<Error>,
    signal: bool,
    serveFirst: bool)

  // ----- Closing -----

  /** Closing in reverse opening order. */
  function CloseEvents(dbs: seq<nat>): seq<Event> {
    if dbs == [] then [] else [Closed(dbs[|dbs| - 1])] + CloseEvents(dbs[..|dbs| - 1])
  }

  function OpenEvents(dbs: seq<nat>): seq<Event> {
    if dbs == [] then [] else OpenEvents(dbs[..|dbs| - 1]) + [Opened(dbs[|dbs| - 1])]
  }

  /** The error is there and matches the target. */
  predicate Matches(err: Option<Error>, target: Error) {
    err.Some? && Is(err.value, target)
  }

  /** Closing one of the databases fails with an error that matches the target. */
  predicate CloseMatches(o: Outcomes, dbs: seq<nat>, target: Error) {
    dbs != [] && (Matches(o.close(dbs[|dbs| - 1]), target) || CloseMatches(o, dbs[..|dbs| - 1], target))
  }

  /** err matches exactly what the closing errors of dbs match. */
  ghost predicate CarriesCloseErrors(err: Option<Error>, o: Outcomes, dbs: seq<nat>) {
    forall t: Error :: !t.Joined? ==> (Matches(err, t) <==> CloseMatches(o, dbs, t))
  }

  lemma JoinMatches(a: Option<Error>, b: Option<Error>, t: Error)
    requires !t.Joined?
    ensures Matches(Join([a, b]), t) <==> Matches(a, t) || Matches(b, t)
  {
    JoinMatchesParts([a, b], t);
    assert [a, b][0] == a && [a, b][1] == b;
    hide Is, Join, Present;
    if Matches(Join([a, b]), t) {
      var i :| 0 <= i < 2 && [a, b][i].Some? && Is([a, b][i].value, t);
    }
  }

  lemma JoinMatchesAll(a: Option<Error>, b: Option<Error>)
    ensures forall t: Error :: !t.Joined? ==> (Matches(Join([a, b]), t) <==> Matches(a, t) || Matches(b, t))
  {
    forall t: Error | !t.Joined?
      ensures Matches(Join([a, b]), t) <==> Matches(a, t) || Matches(b, t)
    {
      JoinMatches(a, b, t);
    }
  }

  lemma JoinMatchesAll3(a: Option<Error>, b: Option<Error>, c: Option<Error>)
    ensures forall t: Error :: !t.Joined? ==>
              (Matches(Join([a, b, c]), t) <==> Matches(a, t) || Matches(b, t) || Matches(c, t))
  {
    forall t: Error | !t.Joined?
      ensures Matches(Join([a, b, c]), t) <==> Matches(a, t) || Matches(b, t) || Matches(c, t)
    {
      var errs := [a, b, c];
      JoinMatchesParts(errs, t);
      assert errs[0] == a && errs[1] == b && errs[2] == c;
      hide Is, Join, Present;
      if Matches(Join(errs), t) {
        var i :| 0 <= i < 3 && errs[i].Some? && Is(errs[i].value, t);
      }
    }
  }

  method CloseDb(j: Journal, o: Outcomes, db: nat) returns (err: Option<Error>)
    modifies j
    ensures j.events == old(j.events) + [Closed(db)] && err == o.close(db)
  {
    j.events := j.events + [Closed(db)];
    err := o.close(db);
  }

  lemma CloseEventsLast(dbs: seq<nat>, i: nat)
    requires 0 < i <= |dbs|
    ensures CloseEvents(dbs[..i]) == [Closed(dbs[i - 1])] + CloseEvents(dbs[..i - 1])
  {
    assert dbs[..i][..i - 1] == dbs[..i - 1];
  }

  /** Closes every database, last opened first, and joins the errors: none stops the rest. */
  method CloseAll(j: Journal, o: Outcomes, closers: seq<nat>) returns (out: Option<Error>)
    modifies j
    ensures j.events == old(j.events) + CloseEvents(closers)
    ensures CarriesCloseErrors(out, o, closers)
  {
    out := None;
    var i := |closers|;
    assert closers[..i] == closers;
    while i > 0
      invariant 0 <= i <= |closers|
      invariant j.events + CloseEvents(closers[..i]) == old(j.events) + CloseEvents(closers)
      invariant forall t: Error :: !t.Joined? ==>
                  (Matches(out, t) || CloseMatches(o, closers[..i], t) <==> CloseMatches(o, closers, t))
    {
      CloseEventsLast(closers, i);
      assert closers[..i][..i - 1] == closers[..i - 1];
      i := i - 1;
      var err := CloseDb(j, o, closers[i]);
      JoinMatchesAll(out, err);
      hide Join, Matches, CloseEvents;
      out := Join([out, err]);
    }
  }

  /** A repository: the in-memory one, or one over an opened database with its statement
      builder, named after its engine. */
  datatype Repository = InMemory | OverSql(source: Domain.Source, db: nat, builder: Statements.Builder)

  /** The repositories that handles stand for, by number; and the map of sources to handles. */
  datatype Stores = Stores(objects: seq<Repository>, entries: Repositories)

  class Application {
    const closers: seq<nat>
    const objects: seq<Repository>
    var handler: Option<HttpApi.Handler>
    var closed: bool
    var closeErr: Option<Error>

    ghost predicate Valid()
      reads this
    {
      !closed ==> closeErr.None?
    }

    constructor (closers: seq<nat>, objects: seq<Repository>)
      ensures Valid() && !closed && this.closers == closers && this.objects == objects && handler.None?
    {
      this.closers := closers;
      this.objects := objects;
      this.handler := None;
      this.closed := false;
      this.closeErr := None;
    }

    /** The first call closes everything, last opened first; every later call only returns the
        error the first one kept. */
    method Close(j: Journal, o: Outcomes) returns (err: Option<Error>)
      requires Valid()
      modifies this, j
      ensures Valid() && closed && err == closeErr && handler == old(handler)
      ensures old(closed) ==> j.events == old(j.events) && err == old(closeErr)
      ensures !old(closed) ==> j.events == old(j.events) + CloseEvents(closers)
      ensures !old(closed) ==> CarriesCloseErrors(err, o, closers)
    {
      if !closed {
        closed := true;
        var i := |closers|;
        assert closers[..i] == closers;
        while i > 0
          invariant 0 <= i <= |closers| && closed && handler == old(handler)
          invariant j.events + CloseEvents(closers[..i]) == old(j.events) + CloseEvents(closers)
          invariant forall t: Error :: !t.Joined? ==>
                      (Matches(closeErr, t) || CloseMatches(o, closers[..i], t) <==> CloseMatches(o, closers, t))
        {
          CloseEventsLast(closers, i);
          assert closers[..i][..i - 1] == closers[..i - 1];
          i := i - 1;
          var e := CloseDb(j, o, closers[i]);
          if e.Some? {
            JoinMatchesAll(closeErr, e);
            hide Join, Is, CloseEvents;
            closeErr := Join([closeErr, e]);
          }
        }
      }
      err := closeErr;
    }
  }

  /** Closing an application again closes nothing and reports the same. */
  method CloseTwice(a: Application, j: Journal, o: Outcomes, other: Outcomes)
    returns (first: Option<Error>, second: Option<Error>)
    requires a.Valid() && !a.closed
    modifies a, j
    ensures second == first
    ensures j.events == old(j.events) + CloseEvents(a.closers)
  {
    first := a.Close(j, o);
    second := a.Close(j, other);
  }

  // ----- Building -----

  const DATABASES: seq<nat> := [0, 1, 2]

  predicate Opens(o: Outcomes) {
    o.open(0).None? && o.open(1).None? && o.open(2).None?
  }

  /** How many databases are opened, in order, before an open fails. */
  function OpenedCount(o: Outcomes): nat {
    if o.open(0).Some? then 0 else if o.open(1).Some? then 1 else if o.open(2).Some? then 2 else 3
  }

  /** No closing error of the first n databases is missing from err. */
  ghost predicate KeepsCloseErrors(err: Option<Error>, o: Outcomes, n: nat)
    requires n <= 3
  {
    forall t: Error :: !t.Joined? && CloseMatches(o, DATABASES[..n], t) ==> Matches(err, t)
  }

  /** Whatever the cause matches, err matches. */
  ghost predicate Reports(err: Option<Error>, cause: Option<Error>) {
    forall t: Error :: !t.Joined? && !t.Wrapped? && Matches(cause, t) ==> Matches(err, t)
  }

  lemma JoinReports(cause: Option<Error>, closing: Option<Error>)
    ensures Reports(Join([cause, closing]), cause)
  {
    JoinMatchesAll(cause, closing);
  }

  lemma JoinReportsWrapped(name: string, e: Error, closing: Option<Error>)
    ensures Reports(Join([Some(Wrapped(name, e)), closing]), Some(e))
  {
    JoinReports(Some(Wrapped(name, e)), closing);
    WrappingKeepsClass(name, e);
    hide Join;
  }

  lemma NothingToReport(err: Option<Error>)
    ensures Reports(err, None)
  {
  }

  /** The error of the first database that does not open. */
  function OpenFailure(o: Outcomes): Option<Error> {
    if o.open(0).Some? then o.open(0) else if o.open(1).Some? then o.open(1) else o.open(2)
  }

  lemma JoinKeepsCloseErrors(cause: Option<Error>, closing: Option<Error>, o: Outcomes, n: nat)
    requires n <= 3 && CarriesCloseErrors(closing, o, DATABASES[..n])
    ensures KeepsCloseErrors(Join([cause, closing]), o, n)
    ensures cause.Some? ==> Join([cause, closing]).Some?
  {
    JoinMatchesAll(cause, closing);
    assert [cause, closing][0] == cause;
  }

  lemma NothingToClose(err: Option<Error>, o: Outcomes)
    ensures KeepsCloseErrors(err, o, 0)
  {
  }

  /** The text of a source's own open failure, wrapped. */
  function OpenError(o: Outcomes, db: nat, name: string): Option<Error> {
    match o.open(db) case Some(e) => Some(Wrapped(name, e)) case None => None
  }

  method OpenDb(j: Journal, o: Outcomes, db: nat, name: string) returns (err: Option<Error>)
    modifies j
    ensures err == OpenError(o, db, name)
    ensures j.events == old(j.events) + (if err.None? then [Opened(db)] else [])
  {
    err := OpenError(o, db, name);
    if err.None? {
      j.events := j.events + [Opened(db)];
    }
  }

  type Repositories = map<Domain.Source, Service.Handle>

  /** The stores of real mode: each engine over its own database, Hive with quoted literals, the
      others with bound values, all over the configured tables. */
  predicate RealStores(stores: Stores, t: Config.Tables) {
    var (retail, renovation) := (Statements.Qualify(t.prefix, t.retail), Statements.Qualify(t.prefix, t.renovation));
    && stores.objects == [OverSql(Domain.Hive, 0, Statements.Builder.Hive(retail, renovation)),
                          OverSql(Domain.Trino, 1, Statements.Bound(retail, renovation)),
                          OverSql(Domain.StarRocks, 2, Statements.Bound(retail, renovation))]
    && stores.entries == map[Domain.Hive := Some(0), Domain.Trino := Some(1), Domain.StarRocks := Some(2)]
  }

  /** The stores of memory mode: one repository for all three sources. */
  predicate MemoryStores(stores: Stores) {
    && stores.objects == [InMemory]
    && stores.entries == map[Domain.Hive := Some(0), Domain.Trino := Some(0), Domain.StarRocks := Some(0)]
  }

  /** Opens the three databases in turn.  On success all three are open and handed over; on
      failure the first `held` ones were opened, and are closed again. */
  method RealRepositories(c: Config.Config, j: Journal, o: Outcomes)
    returns (r: Result<(Stores, seq<nat>), Error>, ghost held: nat)
    modifies j
    ensures held == OpenedCount(o)
    ensures r.Failure? ==> KeepsCloseErrors(Some(r.error), o, held)
    ensures r.Failure? ==> Reports(Some(r.error), OpenFailure(o))
    ensures r.Success? <==> Opens(o) && Statements.ValidTriple(c.tables.prefix, c.tables.retail, c.tables.renovation)
    ensures r.Success? ==> held == 3 && r.value.1 == DATABASES && RealStores(r.value.0, c.tables)
    ensures j.events == old(j.events) + OpenEvents(DATABASES[..held])
                        + (if r.Success? then [] else CloseEvents(DATABASES[..held]))
  {
    hide CloseEvents, Join, Statements.ValidTriple, KeepsCloseErrors, CarriesCloseErrors;
    OpenEventsOfDatabases();
    var closers: seq<nat> := [];
    held := 0;
    var err := OpenDb(j, o, 0, "open hive");
    if err.None? {
      closers, held := closers + [0], 1;
      assert closers == DATABASES[..1];
      err := OpenDb(j, o, 1, "open trino");
      if err.None? {
        closers, held := closers + [1], 2;
        assert closers == DATABASES[..2];
        err := OpenDb(j, o, 2, "open starrocks");
        if err.None? {
          closers, held := closers + [2], 3;
          assert closers == DATABASES[..3];
          var hive := Statements.NewHiveBuilder(c.tables.prefix, c.tables.retail, c.tables.renovation);
          if hive.Failure? {
            err := Some(hive.error);
          } else {
            var bound := Statements.NewBoundBuilder(c.tables.prefix, c.tables.retail, c.tables.renovation);
            if bound.Failure? {
              assert false;  // the same identifiers were accepted just above
            } else {
              var objects := [OverSql(Domain.Hive, 0, hive.value), OverSql(Domain.Trino, 1, bound.value),
                              OverSql(Domain.StarRocks, 2, bound.value)];
              var repos := map[Domain.Hive := Some(0), Domain.Trino := Some(1), Domain.StarRocks := Some(2)];
              r := Success((Stores(objects, repos), closers));
              return;
            }
          }
        }
      }
    }
    var closing := CloseAll(j, o, closers);
    JoinKeepsCloseErrors(err, closing, o, held);
    if !Opens(o) {
      JoinReportsWrapped(err.value.text, OpenFailure(o).value, closing);
    }
    r := Failure(Join([err, closing]).value);
  }

  lemma OpenEventsOfDatabases()
    ensures OpenEvents(DATABASES[..0]) == []
    ensures OpenEvents(DATABASES[..1]) == [Opened(0)]
    ensures OpenEvents(DATABASES[..2]) == [Opened(0)] + [Opened(1)]
    ensures OpenEvents(DATABASES[..3]) == [Opened(0)] + [Opened(1)] + [Opened(2)]
    ensures CloseEvents(DATABASES[..0]) == []
    ensures CloseEvents(DATABASES[..1]) == [Closed(0)]
    ensures CloseEvents(DATABASES[..2]) == [Closed(1)] + [Closed(0)]
    ensures CloseEvents(DATABASES[..3]) == [Closed(2)] + [Closed(1)] + [Closed(0)]
  {
    assert DATABASES[..1][..0] == DATABASES[..0];
    assert DATABASES[..2][..1] == DATABASES[..1];
    assert DATABASES[..3][..2] == DATABASES[..2];
  }

  method OpenRepositories(c: Config.Config, j: Journal, o: Outcomes)
    returns (r: Result<(Stores, seq<nat>), Error>, ghost held: nat)
    modifies j
    ensures held == if c.dataMode == "real" then OpenedCount(o) else 0
    ensures r.Failure? ==> KeepsCloseErrors(Some(r.error), o, held)
    ensures r.Failure? && c.dataMode == "real" ==> Reports(Some(r.error), OpenFailure(o))
    ensures r.Success? <==> RepositoriesOpen(c, o)
    ensures r.Success? ==> r.value.1 == DATABASES[..held] && (held == 3 || held == 0)
    ensures r.Success? ==> (c.dataMode == "real" <==> held == 3)
    ensures r.Success? ==> if c.dataMode == "real" then RealStores(r.value.0, c.tables) else MemoryStores(r.value.0)
    ensures j.events == old(j.events) + OpenEvents(DATABASES[..held])
                        + (if r.Success? then [] else CloseEvents(DATABASES[..held]))
  {
    OpenEventsOfDatabases();
    NothingToClose(Some(Other("DATA_MODE")), o);
    hide OpenEvents, CloseEvents, Opens, Statements.ValidTriple, KeepsCloseErrors;
    if c.dataMode == "memory" || c.dataMode == "" {
      held := 0;
      var repos := map[Domain.Hive := Some(0), Domain.Trino := Some(0), Domain.StarRocks := Some(0)];
      r := Success((Stores([InMemory], repos), []));
    } else if c.dataMode == "real" {
      r, held := RealRepositories(c, j, o);
    } else {
      held := 0;
      r := Failure(Other("DATA_MODE"));
    }
  }

  predicate RepositoriesOpen(c: Config.Config, o: Outcomes) {
    || c.dataMode == "memory" || c.dataMode == ""
    || (c.dataMode == "real" && Opens(o)
        && Statements.ValidTriple(c.tables.prefix, c.tables.retail, c.tables.renovation))
  }

  lemma OpensInRealMode(c: Config.Config, o: Outcomes)
    ensures c.dataMode == "real" && RepositoriesOpen(c, o) ==> Opens(o) && OpenFailure(o).None?
    ensures c.dataMode == "real" && BuildSucceeds(c, o) ==> Opens(o)
  {
  }

  /** When an application can be built. */
  predicate BuildSucceeds(c: Config.Config, o: Outcomes) {
    && RepositoriesOpen(c, o)
    && (c.dataMode == "real" ==> o.ping.None?)
    && (c.historicalSource == "hive" || c.historicalSource == "trino")
    && c.realtimeWindowDays >= 1
    && c.apiKey != ""
  }

  // ----- Readiness -----

  const PUBLIC := [Domain.Hive, Domain.Trino, Domain.StarRocks]

  /** The repositories of the first k public sources, each where it first appears. */
  function FirstUses(repos: Repositories, k: nat): (uses: seq<nat>)
    requires k <= |PUBLIC|
  {
    if k == 0 then []
    else
      var (before, source) := (FirstUses(repos, k - 1), PUBLIC[k - 1]);
      if Service.Present(repos, source) && repos[source].value !in before then before + [repos[source].value]
      else before
  }

  /** They are the handles of those sources, each once. */
  lemma {:induction false} FirstUsesDistinct(repos: Repositories, k: nat)
    requires k <= |PUBLIC|
    ensures forall i, l :: 0 <= i < l < |FirstUses(repos, k)| ==> FirstUses(repos, k)[i] != FirstUses(repos, k)[l]
    ensures forall n :: n in FirstUses(repos, k) <==> exists s :: s in PUBLIC[..k] && s in repos && repos[s] == Some(n)
    ensures k > 0 && Service.Present(repos, Domain.Hive) ==>
              FirstUses(repos, k) != [] && Some(FirstUses(repos, k)[0]) == repos[Domain.Hive]
    decreases k
  {
    if k > 0 {
      FirstUsesDistinct(repos, k - 1);
      assert PUBLIC[..k] == PUBLIC[..k - 1] + [PUBLIC[k - 1]];
    }
  }

  /** The distinct repositories of the three public sources, in their order. */
  method UniqueRepositories(repos: Repositories) returns (out: seq<nat>)
    ensures out == FirstUses(repos, |PUBLIC|)
    ensures forall i, k :: 0 <= i < k < |out| ==> out[i] != out[k]
    ensures forall n :: n in out <==> exists s :: s in PUBLIC && s in repos && repos[s] == Some(n)
    ensures Service.Present(repos, Domain.Hive) ==> out != [] && Some(out[0]) == repos[Domain.Hive]
  {
    out := [];
    for k := 0 to |PUBLIC|
      invariant out == FirstUses(repos, k)
    {
      var source := PUBLIC[k];
      if Service.Present(repos, source) {
        var repo := repos[source].value;
        var seen := false;
        for i := 0 to |out|
          invariant !seen && repo !in out[..i]
        {
          if out[i] == repo {
            seen := true;
            break;
          }
        }
        assert seen <==> repo in out;
        if !seen {
          out := out + [repo];
        }
      }
    }
    FirstUsesDistinct(repos, |PUBLIC|);
    assert PUBLIC[..|PUBLIC|] == PUBLIC;
  }

  /** The handler is the one the configuration describes: it routes with the configured
      historical source, window and zone, over the stores of the configured mode; it reads
      requests with the configured limit in that same zone; and readiness asks each repository
      once. */
  ghost predicate HandlesAs(handler: HttpApi.Handler, objects: seq<Repository>, c: Config.Config)
    reads handler.queries.repositories
  {
    && Domain.SourceName(handler.queries.routing.historical) == c.historicalSource
    && (handler.queries.routing.historical == Domain.Hive || handler.queries.routing.historical == Domain.Trino)
    && handler.queries.routing.realtimeDays == c.realtimeWindowDays
    && handler.queries.routing.zone == c.timezone
    && handler.zone == c.timezone
    && handler.apiKey == c.apiKey && handler.queryTimeout == c.queryTimeout
    && (c.maxQueryDays >= 1 ==> handler.maxDays == c.maxQueryDays)
    && (if c.dataMode == "real" then RealStores(Stores(objects, handler.queries.repositories.entries), c.tables)
        else MemoryStores(Stores(objects, handler.queries.repositories.entries)))
    && handler.ready == if c.dataMode == "real" then [0, 1, 2] else [0]
  }

  /** Builds the application.  On success it owns exactly the opened databases, all still open,
      and answers as configured; on failure the first `held` databases were opened, and each is
      closed again, in reverse. */
  method BuildWith(c: Config.Config, j: Journal, o: Outcomes)
    returns (r: Result<Application, Error>, ghost held: nat)
    modifies j
    ensures held == if c.dataMode == "real" then OpenedCount(o) else 0
    ensures r.Failure? ==> KeepsCloseErrors(Some(r.error), o, held)
    ensures r.Failure? && c.dataMode == "real" ==> Reports(Some(r.error), OpenFailure(o))
    ensures r.Failure? && c.dataMode == "real" && RepositoriesOpen(c, o) ==> Reports(Some(r.error), o.ping)
    ensures r.Success? <==> BuildSucceeds(c, o)
    ensures r.Success? ==> fresh(r.value) && r.value.Valid() && !r.value.closed
    ensures r.Success? ==> r.value.closers == DATABASES[..held] && (c.dataMode == "real" <==> held == 3)
    ensures r.Success? ==> r.value.handler.Some? && HandlesAs(r.value.handler.value, r.value.objects, c)
    ensures j.events == old(j.events) + OpenEvents(DATABASES[..held])
                        + (if r.Success? then [] else CloseEvents(DATABASES[..held]))
  {
    hide OpenEvents, CloseEvents, CarriesCloseErrors, KeepsCloseErrors, Join, RepositoriesOpen, OpenedCount, Reports;
    var stores: Result<(Stores, seq<nat>), Error>;
    stores, held := OpenRepositories(c, j, o);
    OpensInRealMode(c, o);
    if stores.Failure? {
      r := Failure(stores.error);
      return;
    }
    var application := new Application(stores.value.1, stores.value.0.objects);
    var failed: Option<Error> := None;
    if c.dataMode == "real" && o.ping.Some? {
      failed := Some(Wrapped("startup readiness", o.ping.value));
    } else {
      var historical := Domain.ParseSource(c.historicalSource);
      if historical.Failure? || (historical.value != Domain.Hive && historical.value != Domain.Trino) {
        failed := Some(Wrapped("historical source", InvalidArgument));
      } else {
        var repos := new Service.RepositoryMap(stores.value.0.entries);
        var service := Service.NewQueryService(repos, historical.value, c.realtimeWindowDays,
                                               Some(c.timezone), true, true);
        if service.Failure? {
          failed := Some(service.error);
        } else {
          var ready := UniqueRepositories(stores.value.0.entries);
          var handler := HttpApi.NewHandler(service.value, ready, c.apiKey, c.queryTimeout, c.maxQueryDays, c.timezone);
          if handler.Failure? {
            failed := Some(handler.error);
          } else {
            application.handler := Some(handler.value);
            ReadyRepositories(stores.value.0.entries);
          }
        }
      }
    }
    if failed.Some? {
      var closing := application.Close(j, o);
      JoinKeepsCloseErrors(failed, closing, o, held);
      if c.dataMode == "real" && o.ping.Some? {
        JoinReportsWrapped("startup readiness", o.ping.value, closing);
      }
      r := Failure(Join([failed, closing]).value);
      NothingToReport(Some(r.error));
    } else {
      r := Success(application);
    }
  }

  /** Real mode asks three repositories, memory mode one. */
  lemma ReadyRepositories(entries: Repositories)
    ensures entries == map[Domain.Hive := Some(0), Domain.Trino := Some(1), Domain.StarRocks := Some(2)] ==>
              FirstUses(entries, 3) == [0, 1, 2]
    ensures entries == map[Domain.Hive := Some(0), Domain.Trino := Some(0), Domain.StarRocks := Some(0)] ==>
              FirstUses(entries, 3) == [0]
  {
    assert FirstUses(entries, 0) == [];
    assert PUBLIC[0] == Domain.Hive && PUBLIC[1] == Domain.Trino && PUBLIC[2] == Domain.StarRocks;
    var (a, b) := (FirstUses(entries, 1), FirstUses(entries, 2));
  }

  /** Behind an accepted configuration every constructor check succeeds: in memory mode building
      always succeeds, in real mode it fails exactly when an open or the ping does. */
  lemma LoadedConfigurationsBuild(h: Config.Host, o: Outcomes)
    requires Config.Load(h).Success?
    ensures Config.Load(h).value.dataMode == "memory" ==> BuildSucceeds(Config.Load(h).value, o)
    ensures Config.Load(h).value.dataMode == "real" ==>
              (BuildSucceeds(Config.Load(h).value, o) <==> Opens(o) && o.ping.None?)
    ensures Config.Load(h).value.dataMode == "memory" || Config.Load(h).value.dataMode == "real"
  {
    Config.LoadedIsSound(h);
    hide Config.Load, Opens, Statements.ValidTriple;
  }

  /** Behind a loaded configuration a built handler meets what the query theorems ask of it: in
      real mode valid names, a historical source that is not StarRocks, and for each source the
      repository of that engine with its own dialect; in memory mode one repository for all. */
  lemma BuiltToAnswer(handler: HttpApi.Handler, objects: seq<Repository>, h: Config.Host)
    requires Config.Load(h).Success? && HandlesAs(handler, objects, Config.Load(h).value)
    ensures var (c, s) := (Config.Load(h).value, handler.queries.routing);
            var entries := handler.queries.repositories.entries;
            var names := Answers.Names(c.tables.prefix, c.tables.retail, c.tables.renovation);
            && names.Valid() && handler.maxDays == c.maxQueryDays && handler.zone == s.zone
            && Service.Acceptable(entries, s.historical, s.realtimeDays) && Service.OneForAll(entries)
            && forall source :: source in PUBLIC ==>
                 && entries[source].value < |objects|
                 && objects[entries[source].value]
                    == if c.dataMode == "real" then OverSql(source, entries[source].value, names.BuilderFor(source))
                       else InMemory
  {
    Config.LoadedIsSound(h);
    hide Config.Load, Statements.ValidIdentifier, Config.SoundEngine;
  }

  // ----- Running -----

  /** Between opening and closing nothing is opened or closed. */
  ghost predicate Between(events: seq<Event>) {
    forall e :: e in events ==> !e.Opened? && !e.Closed?
  }

  /** What a run that served reports: Serve's error, Shutdown's on the signal path, and every
      closing error; nothing else, and nothing less. */
  ghost predicate ReportsAll(err: Option<Error>, o: Outcomes, n: nat)
    requires n <= 3
  {
    forall t: Error :: !t.Joined? ==>
      (Matches(err, t) <==>
       Matches(o.serve, t) || (o.signal && Matches(o.shutdown, t)) || CloseMatches(o, DATABASES[..n], t))
  }

  lemma ReportsShutdown(o: Outcomes, closing: Option<Error>, n: nat)
    requires n <= 3 && o.signal && CarriesCloseErrors(closing, o, DATABASES[..n])
    ensures ReportsAll(Join([o.shutdown, o.serve, closing]), o, n)
  {
    JoinMatchesAll3(o.shutdown, o.serve, closing);
    hide Join, Matches, CloseMatches;
  }

  lemma ReportsServe(o: Outcomes, closing: Option<Error>, n: nat)
    requires n <= 3 && !o.signal && CarriesCloseErrors(closing, o, DATABASES[..n])
    ensures ReportsAll(Join([o.serve, closing]), o, n)
  {
    JoinMatchesAll(o.serve, closing);
    hide Join, Matches, CloseMatches;
  }

  lemma ReportingKeeps(err: Option<Error>, o: Outcomes, n: nat)
    requires n <= 3 && ReportsAll(err, o, n)
    ensures KeepsCloseErrors(err, o, n)
  {
    hide Matches, CloseMatches;
  }

  /** From listening to the last close: the select, then Shutdown and Serve's result, or
      Serve's result alone, and only then closing. */
  method Serve(application: Application, window: int, j: Journal, o: Outcomes)
    returns (err: Option<Error>, ghost middle: seq<Event>)
    requires application.Valid() && !application.closed
    requires |application.closers| <= 3 && application.closers == DATABASES[..|application.closers|]
    modifies application, j
    ensures Between(middle) && Listened in middle && ServeReturned in middle
    ensures o.signal ==> ShutdownReturned(window) in middle
    ensures !o.signal ==> forall e :: e in middle ==> !e.ShutdownReturned?
    ensures j.events == old(j.events) + middle + CloseEvents(application.closers)
    ensures application.handler == old(application.handler)
    ensures ReportsAll(err, o, |application.closers|)
  {
    hide CloseEvents, Join, Matches, ReportsAll, CarriesCloseErrors;
    ghost var before := j.events;
    j.events := j.events + [Listened];
    if o.signal {
      if o.serveFirst {
        j.events := j.events + [ServeReturned];
        j.events := j.events + [ShutdownReturned(window)];
        middle := [Listened, ServeReturned, ShutdownReturned(window)];
      } else {
        j.events := j.events + [ShutdownReturned(window)];
        j.events := j.events + [ServeReturned];
        middle := [Listened, ShutdownReturned(window), ServeReturned];
      }
      assert j.events == before + middle;
      var closing := application.Close(j, o);
      ReportsShutdown(o, closing, |application.closers|);
      err := Join([o.shutdown, o.serve, closing]);
    } else {
      j.events := j.events + [ServeReturned];
      middle := [Listened, ServeReturned];
      assert j.events == before + middle;
      var closing := application.Close(j, o);
      ReportsServe(o, closing, |application.closers|);
      err := Join([o.serve, closing]);
    }
  }

  /** Runs the server until a signal or until Serve gives up.  On every path the journal is the
      opened databases, what happened between, and their closing. */
  method Run(h: Config.Host, j: Journal, o: Outcomes)
    returns (err: Option<Error>, ghost held: nat, ghost middle: seq<Event>, ghost served: Option<Application>)
    modifies j
    ensures Between(middle) && held == Held(h, o)
    ensures j.events == old(j.events) + Whole(held, middle)
    ensures KeepsCloseErrors(err, o, held)
    ensures Serves(h, o) ==> ServesWell(h, o, middle)
    ensures Serves(h, o) ==> ReportsAll(err, o, held)
    ensures Serves(h, o) <==> served.Some?
    ensures served.Some? ==>
              served.value.handler.Some?
              && HandlesAs(served.value.handler.value, served.value.objects, Config.Load(h).value)
    ensures !Serves(h, o) ==> err.Some? && middle == []
    ensures Config.Load(h).Success? && BuildSucceeds(Config.Load(h).value, o) && !Serves(h, o) ==>
              Reports(err, o.listen)
    ensures Config.Load(h).Success? && Config.Load(h).value.dataMode == "real" && !Opens(o) ==>
              Reports(err, OpenFailure(o))
  {
    hide OpenEvents, CloseEvents, Join, Matches, BuildSucceeds, Config.Load, OpenedCount;
    hide CarriesCloseErrors, KeepsCloseErrors, ReportsAll;
    middle, held, served := [], 0, None;
    DatabasesNone();
    var config := Config.Load(h);
    if config.Failure? {
      err := Some(Other(config.error));
      NothingToClose(err, o);
      return;
    }
    var application: Result<Application, Error>;
    application, held := BuildWith(config.value, j, o);
    if application.Failure? {
      err := Some(application.error);
      return;
    }
    OpensInRealMode(config.value, o);
    if o.listen.Some? {
      var closing := application.value.Close(j, o);
      JoinKeepsCloseErrors(o.listen, closing, o, held);
      JoinReports(o.listen, closing);
      err := Join([o.listen, closing]);
      return;
    }
    err, middle := Serve(application.value, config.value.shutdownTimeout, j, o);
    served := Some(application.value);
    ReportingKeeps(err, o, held);
  }

  /** Serve's result comes before closing, and on a signal so does Shutdown's, which was given
      the configured time. */
  ghost predicate ServesWell(h: Config.Host, o: Outcomes, middle: seq<Event>)
    requires Config.Load(h).Success?
  {
    && ServeReturned in middle
    && (o.signal ==> ShutdownReturned(Config.Load(h).value.shutdownTimeout) in middle)
    && (!o.signal ==> forall e :: e in middle ==> !e.ShutdownReturned?)
  }

  /** The run gets as far as serving. */
  predicate Serves(h: Config.Host, o: Outcomes) {
    Config.Load(h).Success? && BuildSucceeds(Config.Load(h).value, o) && o.listen.None?
  }

  /** How many databases a run opens. */
  function Held(h: Config.Host, o: Outcomes): (n: nat)
    ensures n <= 3
  {
    if Config.Load(h).Success? && Config.Load(h).value.dataMode == "real" then OpenedCount(o) else 0
  }

  /** All of a run's events. */
  ghost function Whole(held: nat, middle: seq<Event>): seq<Event>
    requires held <= 3
  {
    OpenEvents(DATABASES[..held]) + middle + CloseEvents(DATABASES[..held])
  }

  lemma DatabasesNone()
    ensures OpenEvents(DATABASES[..0]) == [] && CloseEvents(DATABASES[..0]) == []
  {
  }

  /** The first n databases, and no others, are opened, each once, and closed, each once. */
  ghost predicate Balanced(log: seq<Event>, n: nat) {
    forall db: nat :: OncePerDatabase(log, n, db)
  }

  ghost predicate OncePerDatabase(log: seq<Event>, n: nat, db: nat) {
    multiset(log)[Opened(db)] == multiset(log)[Closed(db)] == if db < n then 1 else 0
  }

  /** Databases are opened in order and closed in reverse; and once closing has begun, nothing
      but closing follows, so closing comes after Shutdown and after Serve's result. */
  ghost predicate ClosesLastInReverse(log: seq<Event>) {
    && (forall i, k :: 0 <= i < k < |log| && log[i].Closed? ==> log[k].Closed? && log[k].db < log[i].db)
    && (forall i, k :: 0 <= i < k < |log| && log[i].Opened? && log[k].Opened? ==> log[i].db < log[k].db)
  }

  /** The opening and the closing events of the first n databases, position by position. */
  lemma DatabaseEvents(n: nat)
    requires n <= 3
    ensures var (a, b) := (OpenEvents(DATABASES[..n]), CloseEvents(DATABASES[..n]));
            && |a| == |b| == n
            && (forall i :: 0 <= i < n ==> a[i] == Opened(i) && b[i] == Closed(n - 1 - i))
  {
    OpenEventsOfDatabases();
    hide OpenEvents, CloseEvents;
  }

  lemma {:induction false} CountOpened(a: seq<Event>, db: nat)
    requires forall i :: 0 <= i < |a| ==> a[i] == Opened(i)
    ensures multiset(a)[Opened(db)] == (if db < |a| then 1 else 0) && multiset(a)[Closed(db)] == 0
    decreases |a|
  {
    if a != [] {
      assert a == a[..|a| - 1] + [a[|a| - 1]];
      CountOpened(a[..|a| - 1], db);
    }
  }

  lemma {:induction false} CountClosed(b: seq<Event>, db: nat)
    requires forall i :: 0 <= i < |b| ==> b[i] == Closed(|b| - 1 - i)
    ensures multiset(b)[Closed(db)] == (if db < |b| then 1 else 0) && multiset(b)[Opened(db)] == 0
    decreases |b|
  {
    if b != [] {
      assert b == [b[0]] + b[1..];
      CountClosed(b[1..], db);
    }
  }

  lemma CountBetween(middle: seq<Event>, db: nat)
    requires Between(middle)
    ensures multiset(middle)[Opened(db)] == 0 && multiset(middle)[Closed(db)] == 0
  {
    assert Opened(db) !in middle && Closed(db) !in middle;
  }

  lemma CountsBalance(a: seq<Event>, middle: seq<Event>, b: seq<Event>, db: nat)
    requires |a| == |b| && Between(middle)
    requires forall i :: 0 <= i < |a| ==> a[i] == Opened(i) && b[i] == Closed(|b| - 1 - i)
    ensures OncePerDatabase(a + middle + b, |a|, db)
  {
    CountOpened(a, db);
    CountBetween(middle, db);
    CountClosed(b, db);
    assert multiset(a + middle + b) == multiset(a) + multiset(middle) + multiset(b);
  }

  /** In every run each opened database is closed exactly once, in reverse opening order and
      after everything else. */
  lemma RunsCloseWell(held: nat, middle: seq<Event>)
    requires held <= 3 && Between(middle)
    ensures Balanced(Whole(held, middle), held)
    ensures ClosesLastInReverse(Whole(held, middle))
  {
    DatabaseEvents(held);
    var (a, b) := (OpenEvents(DATABASES[..held]), CloseEvents(DATABASES[..held]));
    hide OpenEvents, CloseEvents, Between, OncePerDatabase, ClosesLastInReverse;
    InOrder(a, middle, b);
    forall db: nat
      ensures OncePerDatabase(a + middle + b, held, db)
    {
      CountsBalance(a, middle, b, db);
    }
  }

  lemma InOrder(a: seq<Event>, middle: seq<Event>, b: seq<Event>)
    requires |a| == |b| && Between(middle)
    requires forall i :: 0 <= i < |a| ==> a[i] == Opened(i) && b[i] == Closed(|b| - 1 - i)
    ensures ClosesLastInReverse(a + middle + b)
  {
    var log := a + middle + b;
    forall i | 0 <= i < |log|
      ensures log[i].Closed? <==> |a| + |middle| <= i
      ensures log[i].Closed? ==> log[i].db == |log| - 1 - i
      ensures log[i].Opened? <==> i < |a|
      ensures log[i].Opened? ==> log[i].db == i
    {
      if |a| <= i < |a| + |middle| {
        assert log[i] == middle[i - |a|];
      }
    }
  }
}
