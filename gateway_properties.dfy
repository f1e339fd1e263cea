/**
 * What one call of `execute_sql` or `list_databases` promises: the gate, the
 * order of the driver calls, the row cap and its note, the commit of
 * statements without a result, the shape of every response.
 *
 * The properties of `execute_sql` past the gate are stated on `StatementRun`;
 * `Gate` says that an admitted query runs exactly that.
 */
module GatewayProperties {
  import opened Wrappers
  import opened Text
  import opened Decimal
  import opened Configuration
  import opened Policy
  import opened Driver
  import opened Responses
  import opened Gateway

  // ---------------------------------------------------------------------------
  // execute_sql

  /** The steps of `execute_sql` past the gate, on each of its paths. */
  lemma StatementStepsByPath(c: Config, script: Script, database: string, query: string)
    ensures var t := StatementSteps(c, script, database, query);
      var params := ConnectionParams(c, database);
      var setTimeout := SetTimeoutStatement(c);
      var reply := script.respond(database, query);
      var sent := [Connect(params), OpenCursor, Execute(setTimeout), Execute(query)];
      if script.refuse(params).Some? then t == [Connect(params)]
      else if script.respond(database, setTimeout).Raised? then t == sent[..3]
      else if reply.Raised? then t == sent
      else if HasColumns(reply) then
        t == sent + [Describe, FetchMany(MaxRows(c)), ReadRowCount, CloseCursor, CloseConnection]
      else if script.commit(database).Some? then t == sent + [Describe, Event.Commit]
      else t == sent + [Describe, Event.Commit, ReadRowCount, CloseCursor, CloseConnection]
  {
    var params := ConnectionParams(c, database);
    var setTimeout := SetTimeoutStatement(c);
    var reply := script.respond(database, query);
    var sent := [Connect(params), OpenCursor, Execute(setTimeout), Execute(query)];
    var connected := After(Start, Connect(params));
    assert Events(connected) == [Connect(params)];
    if script.refuse(params).None? {
      var timed := After(After(connected, OpenCursor), Execute(setTimeout));
      assert Events(timed) == sent[..3];
      if !script.respond(database, setTimeout).Raised? {
        var ran := After(timed, Execute(query));
        assert Events(ran) == sent;
        if HasColumns(reply) {
          var fetched := After(After(ran, Describe), FetchMany(MaxRows(c)));
          assert Events(fetched) == sent + [Describe, FetchMany(MaxRows(c))];
          var closing := After(After(fetched, ReadRowCount), CloseCursor);
          assert Events(closing) == sent + [Describe, FetchMany(MaxRows(c)), ReadRowCount, CloseCursor];
        } else if !reply.Raised? {
          var committed := After(After(ran, Describe), Event.Commit);
          assert Events(committed) == sent + [Describe, Event.Commit];
          var closing := After(After(committed, ReadRowCount), CloseCursor);
          assert Events(closing) == sent + [Describe, Event.Commit, ReadRowCount, CloseCursor];
        }
      }
    }
  }

  /**
   * A call past the gate does not look at what the server did before: from any
   * earlier log it gives the same response and appends the same steps.
   */
  lemma StatementAppends(c: Config, script: Script, database: string, query: string, start: Log)
    ensures StatementRun(c, script, database, query, start).response
      == StatementRun(c, script, database, query, Start).response
    ensures Events(StatementRun(c, script, database, query, start).log)
      == Events(start) + StatementSteps(c, script, database, query)
  {
    var params := ConnectionParams(c, database);
    var setTimeout := SetTimeoutStatement(c);
    var reply := script.respond(database, query);
    var first := StatementRun(c, script, database, query, Start).log;
    var connected := After(Start, Connect(params));
    assert Graft(start, connected) == After(start, Connect(params));
    if script.refuse(params).None? {
      var timed := After(After(connected, OpenCursor), Execute(setTimeout));
      assert Graft(start, timed) == After(After(Graft(start, connected), OpenCursor), Execute(setTimeout));
      if !script.respond(database, setTimeout).Raised? {
        var ran := After(timed, Execute(query));
        assert Graft(start, ran) == After(Graft(start, timed), Execute(query));
        if HasColumns(reply) {
          var fetched := After(After(ran, Describe), FetchMany(MaxRows(c)));
          assert Graft(start, fetched) == After(After(Graft(start, ran), Describe), FetchMany(MaxRows(c)));
          var closing := After(After(fetched, ReadRowCount), CloseCursor);
          assert Graft(start, closing) == After(After(Graft(start, fetched), ReadRowCount), CloseCursor);
        } else if !reply.Raised? {
          var committed := After(After(ran, Describe), Event.Commit);
          assert Graft(start, committed) == After(After(Graft(start, ran), Describe), Event.Commit);
          var closing := After(After(committed, ReadRowCount), CloseCursor);
          assert Graft(start, closing) == After(After(Graft(start, committed), ReadRowCount), CloseCursor);
        }
      }
    }
    assert StatementRun(c, script, database, query, start).log == Graft(start, first);
    GraftEvents(start, first);
  }

  /** The same for the whole call: a refused query leaves any log as it was. */
  lemma ExecuteSqlAppends(c: Config, script: Script, database: string, query: string, start: Log)
    ensures ExecuteSqlRun(c, script, database, query, start).response
      == ExecuteSqlRun(c, script, database, query, Start).response
    ensures Events(ExecuteSqlRun(c, script, database, query, start).log)
      == Events(start) + ExecuteSqlSteps(c, script, database, query)
  {
    if !Refused(c, query) {
      StatementAppends(c, script, database, query, start);
    }
  }

  /**
   * The gate: a refused query takes no step and gets the read-only error; an
   * admitted query runs the statement path, whose first step is the connect.
   * Only the refusal carries the read-only message.
   */
  lemma Gate(c: Config, script: Script, database: string, query: string)
    ensures ReadOnly(c) && !IsReadOnlyQuery(query) ==>
      ExecuteSqlRun(c, script, database, query, Start).response == QueryError(ReadOnlyMessage)
      && ExecuteSqlSteps(c, script, database, query) == []
    ensures !(ReadOnly(c) && !IsReadOnlyQuery(query)) ==>
      ExecuteSqlRun(c, script, database, query, Start) == StatementRun(c, script, database, query, Start)
    ensures !(ReadOnly(c) && !IsReadOnlyQuery(query)) ==>
      var t := ExecuteSqlSteps(c, script, database, query);
      t != [] && t[0] == Connect(ConnectionParams(c, database))
    ensures ExecuteSqlRun(c, script, database, query, Start).response.message == ReadOnlyMessage
      <==> ReadOnly(c) && !IsReadOnlyQuery(query)
  {
    StatementStepsByPath(c, script, database, query);
    var reply := script.respond(database, query);
    if !Refused(c, query) {
      var r := StatementRun(c, script, database, query, Start).response;
      if r.status == StatusError {
        match script.refuse(ConnectionParams(c, database))
        case Some(f) => RefusalIsNotAnError(f);
        case None =>
          match script.respond(database, SetTimeoutStatement(c))
          case Raised(f) => RefusalIsNotAnError(f);
          case _ =>
            if reply.Raised? {
              RefusalIsNotAnError(reply.failure);
            } else {
              RefusalIsNotAnError(script.commit(database).value);
            }
      } else if HasColumns(reply) {
        SuccessIsNotRefusal(|r.rows|, reply.rowcount, MaxRows(c), 0);
      } else {
        SuccessIsNotRefusal(0, 0, 0, reply.rowcount);
      }
    }
  }

  /** With `read_only` unset or false, the gate admits every query, whatever its text. */
  lemma WritableAdmitsAll(c: Config, script: Script, database: string, query: string, start: Log)
    requires c.readOnly != Some(true)
    ensures ExecuteSqlRun(c, script, database, query, start) == StatementRun(c, script, database, query, start)
  {
  }

  /**
   * A refused connect, a failed timeout command and a failed query are each
   * reported as that exception, and the call stops there.
   */
  lemma StatementFailures(c: Config, script: Script, database: string, query: string)
    ensures var params := ConnectionParams(c, database);
      script.refuse(params).Some? ==>
        StatementRun(c, script, database, query, Start).response == QueryError(ErrorMessage(script.refuse(params).value))
        && StatementSteps(c, script, database, query) == [Connect(params)]
    ensures var reply := script.respond(database, SetTimeoutStatement(c));
      script.refuse(ConnectionParams(c, database)).None? && reply.Raised? ==>
        StatementRun(c, script, database, query, Start).response == QueryError(ErrorMessage(reply.failure))
        && |StatementSteps(c, script, database, query)| == 3
    ensures var reply := script.respond(database, query);
      TimeoutSet(c, script, database) && reply.Raised? ==>
        StatementRun(c, script, database, query, Start).response == QueryError(ErrorMessage(reply.failure))
        && |StatementSteps(c, script, database, query)| == 4
  {
    StatementStepsByPath(c, script, database, query);
  }

  /**
   * The statement timeout is set on the cursor before the user's query and is
   * the only other statement sent; the query is sent exactly when the
   * connection was accepted and the timeout set; the connect timeout is the
   * same setting as the statement timeout.
   */
  lemma TimeoutBeforeQuery(c: Config, script: Script, database: string, query: string)
    ensures var t := StatementSteps(c, script, database, query);
      forall i | 0 <= i < |t| && t[i].Execute? ::
        (i == 2 && t[i].sql == SetTimeoutStatement(c)) || (i == 3 && t[i].sql == query)
    ensures |StatementSteps(c, script, database, query)| > 3 <==> TimeoutSet(c, script, database)
    ensures var t := StatementSteps(c, script, database, query);
      t[0].Connect? && t[0].params.connectTimeout == QueryTimeout(c)
  {
    StatementStepsByPath(c, script, database, query);
  }

  /**
   * A statement with result columns returns the first `max_rows` rows and
   * every column; the note is added exactly when the driver's row count exceeds
   * the cap, which, when that count is the number of rows the statement
   * produced, is exactly when rows were held back. Nothing is committed.
   */
  lemma RowCap(c: Config, script: Script, database: string, query: string)
    requires TimeoutSet(c, script, database)
    requires HasColumns(script.respond(database, query))
    ensures var r := StatementRun(c, script, database, query, Start).response;
      var reply := script.respond(database, query);
      r.status == StatusSuccess && r.columns == reply.columns && r.rowCount == |r.rows|
    ensures var r := StatementRun(c, script, database, query, Start).response;
      var reply := script.respond(database, query);
      r.rows <= reply.rows
      && |r.rows| == if |reply.rows| <= MaxRows(c) then |reply.rows| else MaxRows(c)
    ensures var r := StatementRun(c, script, database, query, Start).response;
      StartsWith(r.message, SuccessPrefix + "Returned " + IntToString(|r.rows|) + " rows.")
    ensures var r := StatementRun(c, script, database, query, Start).response;
      var reply := script.respond(database, query);
      r.message == SuccessPrefix + "Returned " + IntToString(|r.rows|) + " rows."
        + (if reply.rowcount > MaxRows(c) then LimitNote(MaxRows(c)) else "")
    ensures var r := StatementRun(c, script, database, query, Start).response;
      EndsWith(r.message, LimitNote(MaxRows(c))) <==> script.respond(database, query).rowcount > MaxRows(c)
    ensures var r := StatementRun(c, script, database, query, Start).response;
      var reply := script.respond(database, query);
      reply.rowcount == |reply.rows| ==>
        (EndsWith(r.message, LimitNote(MaxRows(c))) <==> |r.rows| < |reply.rows|)
    ensures Event.Commit !in StatementSteps(c, script, database, query)
  {
    var reply := script.respond(database, query);
    var r := StatementRun(c, script, database, query, Start).response;
    StatementStepsByPath(c, script, database, query);
    LimitNoteIff(|r.rows|, reply.rowcount, MaxRows(c));
  }

  /**
   * A statement without result columns is committed, and only after the commit
   * is the affected-row count read; a failed commit is reported and nothing
   * after it runs.
   */
  lemma MutationCommits(c: Config, script: Script, database: string, query: string)
    requires TimeoutSet(c, script, database)
    requires !script.respond(database, query).Raised? && !HasColumns(script.respond(database, query))
    ensures var t := StatementSteps(c, script, database, query);
      |t| >= 6 && t[4] == Describe && t[5] == Event.Commit
    ensures script.commit(database).None? ==>
      var n := script.respond(database, query).rowcount;
      StatementRun(c, script, database, query, Start).response
        == QueryResponse(StatusSuccess, [], n, [], AffectedMessage(n))
    ensures script.commit(database).None? ==> StatementSteps(c, script, database, query)[6] == ReadRowCount
    ensures script.commit(database).Some? ==>
      StatementRun(c, script, database, query, Start).response
        == QueryError(ErrorMessage(script.commit(database).value))
    ensures script.commit(database).Some? ==> ReadRowCount !in StatementSteps(c, script, database, query)
  {
    StatementStepsByPath(c, script, database, query);
  }

  /**
   * The statement is committed at most once, as the sixth step, and the row
   * count is read at most once, after it when there is a commit.
   */
  lemma CommitBeforeRowCount(c: Config, script: Script, database: string, query: string)
    ensures var t := StatementSteps(c, script, database, query);
      forall i | 0 <= i < |t| && t[i] == Event.Commit :: i == 5
    ensures var t := StatementSteps(c, script, database, query);
      forall j | 0 <= j < |t| && t[j] == ReadRowCount :: j == |t| - 3 && j >= 6
  {
    StatementStepsByPath(c, script, database, query);
    PathCases(c, script, database, query);
  }

  /**
   * Every response past the gate is a success or an error; an error carries no
   * rows, no columns and a zero count, and its message starts with one of the
   * two exception prefixes; a success message starts with its own.
   */
  lemma ResponseShape(c: Config, script: Script, database: string, query: string)
    ensures var r := StatementRun(c, script, database, query, Start).response;
      r.status == StatusSuccess || r.status == StatusError
    ensures var r := StatementRun(c, script, database, query, Start).response;
      r.status == StatusError ==> r.rows == [] && r.rowCount == 0 && r.columns == []
    ensures var r := StatementRun(c, script, database, query, Start).response;
      r.status == StatusError ==>
        StartsWith(r.message, DatabaseErrorPrefix) || StartsWith(r.message, ErrorPrefix)
    ensures var r := StatementRun(c, script, database, query, Start).response;
      r.status == StatusSuccess ==> StartsWith(r.message, SuccessPrefix)
  {
  }

  /**
   * Cursor and connection are closed exactly on the calls that succeed, once
   * each and as the last two steps; on every failure they are left open.
   */
  lemma ClosesOnSuccessOnly(c: Config, script: Script, database: string, query: string)
    ensures CloseConnection in StatementSteps(c, script, database, query)
      <==> StatementRun(c, script, database, query, Start).response.status == StatusSuccess
    ensures CloseCursor in StatementSteps(c, script, database, query)
      <==> StatementRun(c, script, database, query, Start).response.status == StatusSuccess
    ensures var t := StatementSteps(c, script, database, query);
      forall i | 0 <= i < |t| && t[i] == CloseCursor :: i == |t| - 2
    ensures var t := StatementSteps(c, script, database, query);
      forall i | 0 <= i < |t| && t[i] == CloseConnection :: i == |t| - 1
  {
    StatementStepsByPath(c, script, database, query);
    PathCases(c, script, database, query);
  }

  /** Where each kind of step can sit, path by path. */
  lemma PathCases(c: Config, script: Script, database: string, query: string)
    ensures var t := StatementSteps(c, script, database, query);
      forall i | 0 <= i < |t| ::
        (t[i].Connect? <==> i == 0) && (t[i] == OpenCursor <==> i == 1)
        && (t[i].Execute? <==> 2 <= i <= 3) && (t[i] == Describe <==> i == 4)
        && (t[i] == Event.Commit || t[i].FetchMany? <==> i == 5)
        && (t[i] == ReadRowCount <==> i == 6) && (t[i] == CloseCursor <==> i == 7)
        && (t[i] == CloseConnection <==> i == 8)
  {
    var t := StatementSteps(c, script, database, query);
    var reply := script.respond(database, query);
    var sent := [Connect(ConnectionParams(c, database)), OpenCursor, Execute(SetTimeoutStatement(c)), Execute(query)];
    var fifth := if HasColumns(reply) then FetchMany(MaxRows(c)) else Event.Commit;
    var full := sent + [Describe, fifth, ReadRowCount, CloseCursor, CloseConnection];
    StatementStepsByPath(c, script, database, query);
    assert |t| <= |full| && t == full[..|t|];
    forall i | 0 <= i < |t|
      ensures (t[i].Connect? <==> i == 0) && (t[i] == OpenCursor <==> i == 1)
        && (t[i].Execute? <==> 2 <= i <= 3) && (t[i] == Describe <==> i == 4)
        && (t[i] == Event.Commit || t[i].FetchMany? <==> i == 5)
        && (t[i] == ReadRowCount <==> i == 6) && (t[i] == CloseCursor <==> i == 7)
        && (t[i] == CloseConnection <==> i == 8)
    {
      assert t[i] == full[i];
      if i < 4 {
        assert full[i] == sent[i];
      }
    }
  }

  // ---------------------------------------------------------------------------
  // Scenarios

  /** In read-only mode a DELETE is refused before any connection is opened. */
  lemma ReadOnlyRefusesDelete(c: Config, script: Script, database: string, query: string)
    requires c.readOnly == Some(true) && query == "DELETE FROM orders"
    ensures ExecuteSqlRun(c, script, database, query, Start).response == QueryError(ReadOnlyMessage)
    ensures ExecuteSqlSteps(c, script, database, query) == []
  {
    RejectsDelete(query);
  }

  /** With `max_rows` 2, a query that produces five rows returns the first two and says it was cut. */
  lemma TwoOfFive(c: Config, script: Script, database: string, query: string, rows: seq<Row>)
    requires c.maxRows == Some(2) && TimeoutSet(c, script, database)
    requires |rows| == 5 && script.respond(database, query) == Described(["id"], rows, 5)
    ensures var r := StatementRun(c, script, database, query, Start).response;
      r.status == StatusSuccess && r.rows == rows[..2] && r.rowCount == 2 && r.columns == ["id"]
    ensures StatementRun(c, script, database, query, Start).response.message
      == "Query executed successfully. Returned 2 rows. (Limited to 2 rows)"
  {
    var r := StatementRun(c, script, database, query, Start).response;
    assert r.rows == rows[..2];
    assert r.message == RowsMessage(2, 5, 2);
    TwoOfFiveMessage();
  }

  lemma TwoOfFiveMessage()
    ensures RowsMessage(2, 5, 2) == "Query executed successfully. Returned 2 rows. (Limited to 2 rows)"
  {
    assert IntToString(2) == "2";
    assert LimitNote(2) == " (Limited to 2 rows)";
    assert SuccessPrefix + "Returned " + "2" + " rows." == "Query executed successfully. Returned 2 rows.";
  }

  /** An INSERT of one row is committed and reports one row affected. */
  lemma OneRowInserted(c: Config, script: Script, database: string, query: string)
    requires TimeoutSet(c, script, database)
    requires script.respond(database, query) == Undescribed(1) && script.commit(database).None?
    ensures StatementRun(c, script, database, query, Start).response
      == QueryResponse("success", [], 1, [], "Query executed successfully. 1 rows affected.")
  {
    OneRowMessage();
  }

  lemma OneRowMessage()
    ensures AffectedMessage(1) == "Query executed successfully. 1 rows affected."
  {
    assert IntToString(1) == "1";
  }

  // ---------------------------------------------------------------------------
  // list_databases

  /** The steps of `list_databases` on each of its paths. */
  lemma ListStepsByPath(c: Config, script: Script)
    ensures var t := ListDatabasesSteps(c, script);
      var params := ConnectionParams(c, AdminDatabase);
      var sent := [Connect(params), OpenCursor, Execute(CatalogQuery)];
      var reply := script.respond(AdminDatabase, CatalogQuery);
      if script.refuse(params).Some? then t == [Connect(params)]
      else if reply.Raised? then t == sent
      else if reply.Undescribed? then t == sent + [FetchAll]
      else t == sent + [FetchAll, CloseCursor, CloseConnection]
  {
    var params := ConnectionParams(c, AdminDatabase);
    var sent := [Connect(params), OpenCursor, Execute(CatalogQuery)];
    var connected := After(Start, Connect(params));
    assert Events(connected) == [Connect(params)];
    var ran := After(After(connected, OpenCursor), Execute(CatalogQuery));
    assert Events(ran) == sent;
    var closing := After(After(ran, FetchAll), CloseCursor);
    assert Events(closing) == sent + [FetchAll, CloseCursor];
  }

  /**
   * `list_databases` connects to the administrative database and sends the
   * catalog query and nothing else. A success counts its databases and has no
   * message, and the cursor and connection were closed, last; an error has no
   * databases and no count, and carries a message.
   */
  lemma ListShape(c: Config, script: Script)
    ensures var t := ListDatabasesSteps(c, script);
      t != [] && t[0] == Connect(ConnectionParams(c, AdminDatabase))
    ensures var t := ListDatabasesSteps(c, script);
      forall i | 0 <= i < |t| && t[i].Execute? :: i == 2 && t[i].sql == CatalogQuery
    ensures var r := ListDatabasesRun(c, script, Start).response;
      r.status == StatusSuccess || r.status == StatusError
    ensures var r := ListDatabasesRun(c, script, Start).response;
      r.status == StatusSuccess ==> r.count == Some(|r.databases|) && r.message == None
    ensures var r := ListDatabasesRun(c, script, Start).response;
      var t := ListDatabasesSteps(c, script);
      r.status == StatusSuccess ==> |t| == 6 && t[4] == CloseCursor && t[5] == CloseConnection
    ensures var r := ListDatabasesRun(c, script, Start).response;
      r.status == StatusError ==> r.databases == [] && r.count == None && r.message.Some?
  {
    ListStepsByPath(c, script);
  }

  /**
   * When the catalog query yields rows, the databases are their name column,
   * one per row and in the server's order; a row without it fails the call
   * with the missing key's text, after cursor and connection were closed.
   */
  lemma ListedNames(c: Config, script: Script)
    requires script.refuse(ConnectionParams(c, AdminDatabase)).None?
    requires script.respond(AdminDatabase, CatalogQuery).Described?
    ensures var r := ListDatabasesRun(c, script, Start).response;
      var rows := script.respond(AdminDatabase, CatalogQuery).rows;
      r.status == StatusSuccess <==> forall i | 0 <= i < |rows| :: NameColumn in rows[i]
    ensures var r := ListDatabasesRun(c, script, Start).response;
      var rows := script.respond(AdminDatabase, CatalogQuery).rows;
      r.status == StatusSuccess ==>
        |r.databases| == |rows| && forall i | 0 <= i < |rows| :: r.databases[i] == rows[i][NameColumn]
    ensures var r := ListDatabasesRun(c, script, Start).response;
      r.status == StatusError ==> r.message == Some(MissingName)
    ensures var t := ListDatabasesSteps(c, script);
      |t| == 6 && t[5] == CloseConnection
  {
    ListStepsByPath(c, script);
  }

  /**
   * A refused connection, a failed catalog query and a reply without a result
   * set each fail the call with the exception's own text, unprefixed, and leave
   * the connection open.
   */
  lemma ListFailures(c: Config, script: Script)
    ensures var params := ConnectionParams(c, AdminDatabase);
      script.refuse(params).Some? ==>
        ListDatabasesRun(c, script, Start).response == ListError(script.refuse(params).value.text)
    ensures var params := ConnectionParams(c, AdminDatabase);
      var reply := script.respond(AdminDatabase, CatalogQuery);
      script.refuse(params).None? && reply.Raised? ==>
        ListDatabasesRun(c, script, Start).response == ListError(reply.failure.text)
    ensures var params := ConnectionParams(c, AdminDatabase);
      script.refuse(params).None? && script.respond(AdminDatabase, CatalogQuery).Undescribed? ==>
        ListDatabasesRun(c, script, Start).response == ListError(NoResults)
    ensures var params := ConnectionParams(c, AdminDatabase);
      script.refuse(params).Some? || !script.respond(AdminDatabase, CatalogQuery).Described? ==>
        CloseConnection !in ListDatabasesSteps(c, script) && CloseCursor !in ListDatabasesSteps(c, script)
  {
    ListStepsByPath(c, script);
  }

  /** A call of `list_databases` does not look at the log before it; it only appends its steps. */
  lemma ListDatabasesAppends(c: Config, script: Script, start: Log)
    ensures ListDatabasesRun(c, script, start).response == ListDatabasesRun(c, script, Start).response
    ensures Events(ListDatabasesRun(c, script, start).log) == Events(start) + ListDatabasesSteps(c, script)
  {
    var params := ConnectionParams(c, AdminDatabase);
    var first := ListDatabasesRun(c, script, Start).log;
    var connected := After(Start, Connect(params));
    var ran := After(After(connected, OpenCursor), Execute(CatalogQuery));
    assert Graft(start, connected) == After(start, Connect(params));
    assert Graft(start, ran) == After(After(Graft(start, connected), OpenCursor), Execute(CatalogQuery));
    var closing := After(After(ran, FetchAll), CloseCursor);
    assert Graft(start, closing) == After(After(Graft(start, ran), FetchAll), CloseCursor);
    assert ListDatabasesRun(c, script, start).log == Graft(start, first);
    GraftEvents(start, first);
  }
}
