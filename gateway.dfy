/**
 * The query gateway: `execute_sql` and `list_databases`.
 *
 * Each operation is given twice: a function that says what one call returns
 * and which steps it takes against the server (a `Run`), and a method that
 * takes those steps one by one on a `Server` and is proved to return the same
 * response and to leave the same steps in the server's log.
 */
module Gateway {
  import opened Wrappers
  import opened Decimal
  import opened Configuration
  import opened Policy
  import opened Driver
  import opened Responses

  /** The response of one call and the server's log after it. */
  datatype Run<R> = Run(response: R, log: Log)

  /** The connect timeout is the query timeout in seconds, the same setting as the statement timeout. */
  function ConnectionParams(c: Config, database: string): ConnectParams
  {
    ConnectParams(c.host, c.port, database, c.user, c.password, QueryTimeout(c))
  }

  /** The policy gate: refuse a query only when read-only mode is on and the query fails the check. */
  predicate Refused(c: Config, query: string)
  {
    ReadOnly(c) && !IsReadOnlyQuery(query)
  }

  /** Past the gate, the user's query is sent: the connection was accepted and the timeout set. */
  predicate TimeoutSet(c: Config, script: Script, database: string)
  {
    script.refuse(ConnectionParams(c, database)).None?
    && !script.respond(database, SetTimeoutStatement(c)).Raised?
  }

  /** Python truthiness of the cursor's description: absent, or present with no columns, is false. */
  predicate HasColumns(reply: Reply)
  {
    reply.Described? && reply.columns != []
  }

  // ---------------------------------------------------------------------------
  // execute_sql

  /** One call of `execute_sql`, starting from the log `start`. */
  function ExecuteSqlRun(c: Config, script: Script, database: string, query: string, start: Log): (r: Run<QueryResponse>)
    ensures r.response.status == StatusSuccess || r.response.status == StatusError
    ensures Refused(c, query) ==> r.log == start
    ensures r.response.status == StatusSuccess ==> r.log.After? && r.log.step == CloseConnection
  {
    if Refused(c, query) then
      Run(QueryError(ReadOnlyMessage), start)
    else
      StatementRun(c, script, database, query, start)
  }

  /** Everything after the gate: connect, set the timeout, run the query, read or commit, close. */
  function StatementRun(c: Config, script: Script, database: string, query: string, start: Log): (r: Run<QueryResponse>)
    ensures r.response.status == StatusSuccess || r.response.status == StatusError
    ensures r.log.After? && (r.log.step == CloseConnection <==> r.response.status == StatusSuccess)
  {
    var params := ConnectionParams(c, database);
    var connected := After(start, Connect(params));
    match script.refuse(params)
    case Some(f) => Run(QueryError(ErrorMessage(f)), connected)
    case None =>
      var setTimeout := SetTimeoutStatement(c);
      var timed := After(After(connected, OpenCursor), Execute(setTimeout));
      match script.respond(database, setTimeout)
      case Raised(f) => Run(QueryError(ErrorMessage(f)), timed)
      case _ =>
        var ran := After(timed, Execute(query));
        var reply := script.respond(database, query);
        if reply.Raised? then
          Run(QueryError(ErrorMessage(reply.failure)), ran)
        else if HasColumns(reply) then
          var maxRows := MaxRows(c);
          var rows := Take(reply.rows, maxRows);
          var counted := After(After(After(ran, Describe), FetchMany(maxRows)), ReadRowCount);
          Run(QueryResponse(StatusSuccess, rows, |rows|, reply.columns,
                            RowsMessage(|rows|, reply.rowcount, maxRows)),
              After(After(counted, CloseCursor), CloseConnection))
        else
          var committed := After(After(ran, Describe), Event.Commit);
          match script.commit(database)
          case Some(f) => Run(QueryError(ErrorMessage(f)), committed)
          case None =>
            Run(QueryResponse(StatusSuccess, [], reply.rowcount, [], AffectedMessage(reply.rowcount)),
                After(After(After(committed, ReadRowCount), CloseCursor), CloseConnection))
  }

  /** The steps one call of `execute_sql` takes, oldest first. */
  function ExecuteSqlSteps(c: Config, script: Script, database: string, query: string): seq<Event>
  {
    Events(ExecuteSqlRun(c, script, database, query, Start).log)
  }

  /** The steps taken past the gate, oldest first. */
  function StatementSteps(c: Config, script: Script, database: string, query: string): seq<Event>
  {
    Events(StatementRun(c, script, database, query, Start).log)
  }

  method ExecuteSql(c: Config, server: Server, database: string, query: string) returns (r: QueryResponse)
    modifies server
    ensures r == ExecuteSqlRun(c, server.script, database, query, old(server.log)).response
    ensures server.log == ExecuteSqlRun(c, server.script, database, query, old(server.log)).log
  {
    if ReadOnly(c) && !IsReadOnlyQuery(query) {
      return QueryError(ReadOnlyMessage);
    }
    r := RunStatement(c, server, database, query);
  }

  method RunStatement(c: Config, server: Server, database: string, query: string) returns (r: QueryResponse)
    modifies server
    ensures r == StatementRun(c, server.script, database, query, old(server.log)).response
    ensures server.log == StatementRun(c, server.script, database, query, old(server.log)).log
  {
    var refused := server.Connect(ConnectionParams(c, database));
    if refused.Some? {
      return QueryError(ErrorMessage(refused.value));
    }
    server.OpenCursor();

    var timeoutMs := QueryTimeout(c) * 1000;
    var raised := server.Execute(SetTimeoutPrefix + IntToString(timeoutMs));
    if raised.Some? {
      return QueryError(ErrorMessage(raised.value));
    }
    raised := server.Execute(query);
    if raised.Some? {
      return QueryError(ErrorMessage(raised.value));
    }

    var description := server.Description();
    if description.Some? && description.value != [] {
      var columns := description.value;
      var maxRows := MaxRows(c);
      var fetched := server.FetchMany(maxRows);
      var rows := fetched.value;
      var rowCount := |rows|;
      var message := SuccessPrefix + "Returned " + IntToString(rowCount) + " rows.";
      var total := server.RowCount();
      if total > maxRows {
        message := message + LimitNote(maxRows);
      }
      server.CloseCursor();
      server.CloseConnection();
      return QueryResponse(StatusSuccess, rows, rowCount, columns, message);
    } else {
      raised := server.Commit();
      if raised.Some? {
        return QueryError(ErrorMessage(raised.value));
      }
      var rowCount := server.RowCount();
      server.CloseCursor();
      server.CloseConnection();
      return QueryResponse(StatusSuccess, [], rowCount, [], AffectedMessage(rowCount));
    }
  }

  // ---------------------------------------------------------------------------
  // list_databases

  /** `list_databases` always connects to the administrative database. */
  const AdminDatabase := "postgres"

  /** The catalog query, byte for byte as the gateway sends it. */
  const CatalogQuery :=
    "\n            SELECT datname as database_name \n            FROM pg_database \n"
    + "            WHERE datistemplate = false \n            ORDER BY datname\n        "

  const NameColumn := "database_name"

  /** The text of the `KeyError` raised when a row lacks the name column: the key, quoted. */
  const MissingName := "'" + NameColumn + "'"

  /** The name column of every row, in order; the first row without it raises `KeyError`. */
  function ProjectNames(rows: seq<Row>): (r: Result<seq<Value>, Exception>)
    ensures r.Success? <==> forall i | 0 <= i < |rows| :: NameColumn in rows[i]
    ensures r.Success? ==> |r.value| == |rows|
    ensures r.Success? ==> forall i | 0 <= i < |rows| :: r.value[i] == rows[i][NameColumn]
    ensures r.Failure? ==> r.error == OtherError(MissingName)
  {
    if rows == [] then
      Success([])
    else if NameColumn !in rows[0] then
      Failure(OtherError(MissingName))
    else
      match ProjectNames(rows[1..])
      case Success(names) =>
        assert forall i | 1 <= i < |rows| :: rows[i] == rows[1..][i - 1];
        Success([rows[0][NameColumn]] + names)
      case Failure(f) =>
        assert exists i | 0 <= i < |rows[1..]| :: NameColumn !in rows[1..][i];
        Failure(f)
  }

  /** One call of `list_databases`, starting from the log `start`. */
  function ListDatabasesRun(c: Config, script: Script, start: Log): (r: Run<ListResponse>)
    ensures r.response.status == StatusSuccess || r.response.status == StatusError
    ensures r.response.status == StatusSuccess ==> r.response.count == Some(|r.response.databases|)
    ensures r.response.status == StatusError ==> r.response.databases == [] && r.response.count == None
    ensures r.response.status == StatusSuccess ==> r.log.After? && r.log.step == CloseConnection
  {
    var params := ConnectionParams(c, AdminDatabase);
    var connected := After(start, Connect(params));
    match script.refuse(params)
    case Some(f) => Run(ListError(f.text), connected)
    case None =>
      var ran := After(After(connected, OpenCursor), Execute(CatalogQuery));
      match script.respond(AdminDatabase, CatalogQuery)
      case Raised(f) => Run(ListError(f.text), ran)
      case Undescribed(_) => Run(ListError(NoResults), After(ran, FetchAll))
      case Described(_, rows, _) =>
        var closed := After(After(After(ran, FetchAll), CloseCursor), CloseConnection);
        match ProjectNames(rows)
        case Success(names) => Run(ListResponse(StatusSuccess, names, Some(|names|), None), closed)
        case Failure(f) => Run(ListError(f.text), closed)
  }

  /** The steps one call of `list_databases` takes, oldest first. */
  function ListDatabasesSteps(c: Config, script: Script): seq<Event>
  {
    Events(ListDatabasesRun(c, script, Start).log)
  }

  method ListDatabases(c: Config, server: Server) returns (r: ListResponse)
    modifies server
    ensures r == ListDatabasesRun(c, server.script, old(server.log)).response
    ensures server.log == ListDatabasesRun(c, server.script, old(server.log)).log
  {
    var refused := server.Connect(ConnectionParams(c, AdminDatabase));
    if refused.Some? {
      return ListError(refused.value.text);
    }
    server.OpenCursor();
    var raised := server.Execute(CatalogQuery);
    if raised.Some? {
      return ListError(raised.value.text);
    }
    var fetched := server.FetchAll();
    if fetched.Failure? {
      return ListError(fetched.error.text);
    }
    server.CloseCursor();
    server.CloseConnection();
    var names := ProjectNames(fetched.value);
    if names.Failure? {
      return ListError(names.error.text);
    }
    return ListResponse(StatusSuccess, names.value, Some(|names.value|), None);
  }
}
