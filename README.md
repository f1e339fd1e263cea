# postgresql_mcp_lite, modelled in Dafny

postgresql_mcp_lite is a small gateway that exposes a PostgreSQL server to
tool-calling clients through two tools. `execute_sql(database, query)` runs
one caller-supplied statement and returns a record with `status`, `rows`,
`row_count`, `columns` and `message`. `list_databases()` returns the names of
the non-template databases. Three settings shape `execute_sql`:

- `read_only` (default false) turns on a policy gate that admits only
  statements that start, after trimming and upper-casing, with `SELECT`,
  `SHOW`, `DESCRIBE`, `EXPLAIN` or `WITH`;
- `query_timeout` (default 30 s) is both the connect timeout and, in
  milliseconds, the session's `statement_timeout`;
- `max_rows` (default 1000) caps the rows fetched, with a note in the message
  when the driver reports more.

The model has these modules:

- `Text`: Python's `str.strip` (the full `str.isspace` set), `str.upper` on
  ASCII letters (see Left out), `startswith` and `endswith`.
- `Decimal`: `str(int)` as used in the f-strings, with a parser as its inverse.
- `Configuration`: the settings and the defaults that `config.get` supplies.
- `Policy`: `is_read_only_query`.
- `Driver`: the database as the gateway reaches it through psycopg2.
  - A `Server` class holds the open connection's cursor state and a log of
    every driver call.
  - What the database answers is an oracle `Script`: whether a connect is
    refused, what each statement on a database yields, and whether a commit
    fails.
- `Responses`: the two response records and their messages.
- `Gateway`: the two tools.
  - Each tool is a specification function (`ExecuteSqlRun`,
    `ListDatabasesRun`) that gives the response and the resulting log.
  - Each also has a method (`ExecuteSql`, `ListDatabases`) that makes the
    driver calls one by one on a `Server`. It is proved to return that
    response and to leave that log.
- `GatewayProperties`: what a call promises.
  - The gate, and where each step sits in the call's sequence.
  - The timeout is set before the query.
  - The row cap and its note.
  - Statements without a result are committed before the row count is read.
  - Every response has a fixed shape.
  - When cursor and connection are closed.
  - `list_databases` returns exactly the catalog's name column.

Python truthiness is modelled as written: `if cursor.description:` treats a
result with zero columns like no result, so such a statement is committed.

Neither tool closes the cursor or the connection in its `except` handlers
(server.py:85-91, 177-194). A failure raised before the closes leaves whatever
was opened open; `GatewayProperties.ClosesOnSuccessOnly` and
`GatewayProperties.ListFailures` state this. In `list_databases`, a row without
`database_name` fails only after both were closed
(`GatewayProperties.ListedNames`).

## Model

| member | source | states |
|---|---|---|
| `Text.StartsWithAny` | server.py:51 | `startswith` with a tuple: some prefix in the tuple starts the string; `Policy.KeywordAfterLeadingSpace` states the verdict it gives |
| `Text.TrimStart` | server.py:48 | the result is a suffix of the input, what was dropped is all whitespace, and the result does not start with whitespace |
| `Text.TrimEnd` | server.py:48 | the result is a prefix of the input, what was dropped is all whitespace, and the result does not end with whitespace |
| `Text.Strip` | server.py:48 | `strip()` returns a slice of the input with only whitespace before and after it, the slice neither starts nor ends with whitespace, and it is empty exactly when the input is all whitespace |
| `Text.Upper` | server.py:48 | `upper()` keeps the length, upper-cases each character in place, and leaves no lower-case ASCII letter |
| `Text.StripIgnoresPadding` | server.py:48 | whitespace added on either side does not change what `strip()` returns |
| `Text.UpperStripCommute` | server.py:48 | stripping then upper-casing is the same as upper-casing then stripping |
| `Decimal.DigitChar` | server.py:131 | a digit below ten prints as the character with that digit value |
| `Decimal.NatToString` | server.py:146 | a natural number prints as a non-empty run of digits, with a leading zero only for zero itself |
| `Decimal.IntToString` | server.py:131 | `str(i)` is non-empty and starts with a minus sign exactly when `i` is negative |
| `Decimal.NatToStringValue` | server.py:146 | the printed digits read back as the number printed |
| `Decimal.IntToStringRoundTrip` | server.py:130-131 | parsing `str(i)` gives back `i`, for every integer |
| `Decimal.IntToStringInjective` | server.py:146 | two different counts never print the same |
| `Configuration.ReadOnly` | server.py:117 | `read_only` is the configured value, or false when the key is absent |
| `Configuration.QueryTimeout` | server.py:130 | `query_timeout` is the configured value, or 30 when the key is absent |
| `Configuration.MaxRows` | server.py:139 | `max_rows` is the configured value, or 1000 when the key is absent |
| `Configuration.SetTimeoutStatement` | server.py:130-131 | the session command is `SET statement_timeout = ` followed by a non-empty number, negative exactly when the timeout is; `SetTimeoutReadsBack` shows the number is `query_timeout * 1000` |
| `Configuration.UnsetDefaults` | server.py:117-139 | with no optional key set, the gateway is writable, the timeout is 30 s (`SET statement_timeout = 30000`) and the cap is 1000 rows |
| `Configuration.SetTimeoutReadsBack` | server.py:130-131 | the session command starts with `SET statement_timeout = ` and its value reads back as `query_timeout * 1000` |
| `Policy.IsReadOnlyQuery` | server.py:46-51 | an admitted query keeps at least four characters after stripping (the shortest keywords, `SHOW` and `WITH`); `KeywordAfterLeadingSpace` gives the full verdict |
| `Policy.PaddingIrrelevant` | server.py:46-51 | surrounding whitespace does not change the gate's verdict |
| `Policy.CaseIrrelevant` | server.py:46-51 | two queries that upper-case the same get the same verdict |
| `Policy.KeywordAfterLeadingSpace` | server.py:46-51 | a query is admitted exactly when, after its leading whitespace, it starts with an admitted keyword in any case; trailing whitespace plays no part |
| `Policy.AcceptsTrailingStatement` | server.py:46-51 | `select 1; DROP TABLE orders` is admitted: only the first keyword is looked at |
| `Policy.AdmittedByKeyword` | server.py:46-51 | a query that does not start with whitespace and whose upper-cased form starts with an admitted keyword is admitted |
| `Policy.AcceptsLowerSelect` | server.py:46-51 | every query that begins with a lower-case `select` is admitted, whatever follows |
| `Policy.AcceptsWith` | server.py:46-51 | `with t as (select 1) select * from t` is admitted: `WITH` is one of the five keywords |
| `Policy.AcceptsLowerWith` | server.py:46-51 | every query that begins with a lower-case `with` is admitted, whatever follows |
| `Policy.RejectsDelete` | server.py:46-51 | `DELETE FROM orders` is refused |
| `Driver.Take` | server.py:140 | at most `n` leading rows, as `fetchmany(n)` hands over; `Driver.Server.FetchMany` and `GatewayProperties.RowCap` state the prefix and its length |
| `Driver.Server.constructor` | server.py:30-44 | a new server has an empty log |
| `Driver.Server.Connect` | server.py:33-40 | a connect is logged with its parameters, and the oracle decides whether it is refused |
| `Driver.Server.OpenCursor` | server.py:127 | a new cursor has no result and a row count of -1 |
| `Driver.Server.Execute` | server.py:131-134 | a statement is logged, and its result columns, rows and row count become the cursor's; a failed statement leaves no result |
| `Driver.Server.Description` | server.py:137 | reading the description is logged and returns the cursor's columns, if any |
| `Driver.Server.FetchMany` | server.py:140 | without a result set it fails with `no results to fetch`; otherwise it hands over the first `size` unread rows and keeps the rest |
| `Driver.Server.FetchAll` | server.py:72 | without a result set it fails with `no results to fetch`; otherwise it hands over every unread row |
| `Driver.Server.RowCount` | server.py:148 | reading the row count is logged and returns the cursor's count |
| `Driver.Server.Commit` | server.py:163 | a commit is logged, and the oracle decides whether it fails |
| `Driver.Server.CloseCursor` | server.py:151 | closing the cursor is logged |
| `Driver.Server.CloseConnection` | server.py:152 | closing the connection is logged |
| `Responses.QueryError` | server.py:177-194 | the error record of `execute_sql`: status `error`, no rows, no columns, a zero count; also used for the refusal at server.py:118-124; `GatewayProperties.ResponseShape` and `GatewayProperties.Gate` state it |
| `Responses.ListError` | server.py:85-91 | the error record of `list_databases`: status `error`, no databases and the exception's text; `GatewayProperties.ListShape` states it |
| `Responses.LimitNote` | server.py:148-149 | the note ` (Limited to N rows)` for the cap `N`; `Responses.LimitNoteIff` states when it is appended |
| `Responses.ErrorMessage` | server.py:177-194 | a driver error's message is `Database error: ` and its text, any other exception's is `Error: ` and its text, and neither prefix is mistaken for the other |
| `Responses.RowsMessage` | server.py:146-149 | the message for rows starts with `Query executed successfully. Returned `; `RowsCountReadsBack` and `LimitNoteIff` state the rest |
| `Responses.RowsCountReadsBack` | server.py:145-146 | the number of rows returned reads back from the message, right before ` rows.` |
| `Responses.AffectedMessage` | server.py:174 | the message for a statement without a result starts with `Query executed successfully. ` and ends with ` rows affected.` |
| `Responses.AffectedCountReadsBack` | server.py:165-174 | the affected-row count reads back from the text between that prefix and that ending |
| `Responses.LimitNoteIff` | server.py:146-149 | the message ends with ` (Limited to N rows)` exactly when the driver's row count exceeds the cap |
| `Responses.ErrorMessageInjective` | server.py:177-194 | an error message tells a driver error from any other exception, and gives back its text |
| `Responses.RefusalIsNotAnError` | server.py:117-124 | no exception's message reads as the read-only refusal |
| `Responses.SuccessIsNotRefusal` | server.py:146-174 | no success message reads as the read-only refusal |
| `Gateway.ConnectionParams` | server.py:33-39 | the connect uses the configured host, port, user and password, the requested database, and `query_timeout` as `connect_timeout`; `GatewayProperties.TimeoutBeforeQuery` states the timeout |
| `Gateway.Refused` | server.py:117 | a query is refused exactly when `read_only` is on and the classifier rejects it; `GatewayProperties.Gate` and `GatewayProperties.WritableAdmitsAll` state the consequences |
| `Gateway.HasColumns` | server.py:137 | a result with zero columns is treated like no result; `GatewayProperties.RowCap` and `GatewayProperties.MutationCommits` state the two paths it selects |
| `Gateway.ExecuteSqlRun` | server.py:115-194 | the status is `success` or `error`; a refused query leaves the log as it was; a success ends with closing the connection; `GatewayProperties.Gate` states the gate in full |
| `Gateway.StatementRun` | server.py:126-194 | the status is `success` or `error`, and the last step is closing the connection exactly on success; `GatewayProperties.StatementStepsByPath` gives every path's steps |
| `Gateway.ExecuteSql` | server.py:115-194 | the tool returns the response that `ExecuteSqlRun` gives and leaves its log on the server |
| `Gateway.RunStatement` | server.py:126-194 | past the gate, the driver calls return the response that `StatementRun` gives and leave its log |
| `Gateway.ProjectNames` | server.py:77 | every row's `database_name`, in order and one per row; fails with `'database_name'` exactly when some row lacks it |
| `Gateway.ListDatabasesRun` | server.py:60-91 | the status is `success` or `error`; a success counts its databases and ends with closing the connection; an error has no databases and no count; `GatewayProperties.ListShape` states more |
| `Gateway.ListDatabases` | server.py:60-91 | the tool returns the response that `ListDatabasesRun` gives and leaves its log on the server |
| `GatewayProperties.StatementStepsByPath` | server.py:126-194 | the exact driver calls of each path past the gate: refused connect, failed `SET`, failed query, rows, commit failure, commit |
| `GatewayProperties.PathCases` | server.py:126-175 | each kind of driver call has one fixed position in a call, from connect at 0 to closing the connection at 8 |
| `GatewayProperties.StatementAppends` | server.py:126-175 | a call past the gate ignores earlier history: from any log it gives the same response and appends the same steps |
| `GatewayProperties.ExecuteSqlAppends` | server.py:115-194 | the same for the whole tool; a refused query leaves the log as it was |
| `GatewayProperties.Gate` | server.py:117-126 | a refused query gets the read-only error and makes no driver call; an admitted one runs the statement path and connects first; the read-only message appears exactly on refusal |
| `GatewayProperties.WritableAdmitsAll` | server.py:117 | with `read_only` unset or false, every query, whatever its text, runs the statement path |
| `GatewayProperties.StatementFailures` | server.py:126-134 | a refused connect, a failed timeout command and a failed query are each reported as that exception with the error shape, and no further driver call follows |
| `GatewayProperties.TimeoutBeforeQuery` | server.py:126-134 | the only statements sent are the timeout `SET` at step 2 and the query at step 3; the query is sent exactly when the connect and the `SET` succeeded; the connect timeout is `query_timeout` |
| `GatewayProperties.RowCap` | server.py:137-160 | with result columns: success, every column, the first `min(rows, max_rows)` rows, `row_count` their number, a message starting `Query executed successfully. Returned N rows.` for that number and followed by nothing but the note, the note exactly when the driver's count exceeds the cap (so, when that count is the row total, exactly when rows were held back), and no commit |
| `GatewayProperties.MutationCommits` | server.py:161-175 | without result columns: the statement is committed, and the affected count is read after the commit and reported; a failed commit is reported and nothing after it runs |
| `GatewayProperties.CommitBeforeRowCount` | server.py:161-164 | a commit happens at most once, at step 5; the row count is read at most once, after it |
| `GatewayProperties.ResponseShape` | server.py:126-194 | the status is `success` or `error`; an error has no rows, no columns, a zero count and a `Database error: ` or `Error: ` message; a success message starts with `Query executed successfully. ` |
| `GatewayProperties.ClosesOnSuccessOnly` | server.py:151-194 | cursor and connection are closed exactly on success, once each and as the last two steps; failures leave them open |
| `GatewayProperties.ReadOnlyRefusesDelete` | server.py:117-124 | in read-only mode `DELETE FROM orders` gets the read-only error without a connection |
| `GatewayProperties.TwoOfFive` | server.py:137-160 | with `max_rows` 2 and five rows, the first two rows come back with `Returned 2 rows. (Limited to 2 rows)` |
| `GatewayProperties.OneRowInserted` | server.py:161-175 | an insert of one row is committed and reports `1 rows affected.` |
| `GatewayProperties.ListStepsByPath` | server.py:60-91 | the exact driver calls of `list_databases` on each path |
| `GatewayProperties.ListShape` | server.py:60-91 | connects to `postgres` and sends only the catalog query; on success `count` is the number of databases, there is no message, and cursor and connection were closed last; on error there are no databases and no count, and there is a message |
| `GatewayProperties.ListedNames` | server.py:71-83 | when the catalog query yields rows, success holds exactly when every row has `database_name`, and the databases are those values in row order; otherwise the message is `'database_name'`; both come after the closes |
| `GatewayProperties.ListFailures` | server.py:60-91 | a refused connect, a failed query and a reply without a result set report the exception's own text and close nothing: a refused connect opened nothing, and after a failed query or fetch the cursor and connection stay open |
| `GatewayProperties.ListDatabasesAppends` | server.py:54-91 | `list_databases` ignores earlier history: from any log it gives the same response and appends the same steps |

## Left out

- `Text.Upper`: maps only `a`–`z`. Python's `str.upper` also maps other letters, and a few of them map onto the ASCII letters of the keywords: `ſ` (U+017F) to `S`, `ı` (U+0131) to `I`, `ẖ` (U+1E96) to `H` and a combining mark, `ẗ` (U+1E97) to `T` and a combining mark, and `ẘ` (U+1E98) to `W` and a combining mark. The source admits queries such as `ſelect 1`, `selecẗ 1`, `witẖ t as (select 1) select * from t` and `shoẘ x` in read-only mode; the model refuses them.
- Loading `config.json` (server.py:14-25) is not modelled. The settings are a typed value: `port` and `query_timeout` are integers, `max_rows` is a natural number, and `read_only` is a boolean. JSON values of other types (a string `read_only`, a fractional timeout, a negative `max_rows`) are not covered.
- Logging (server.py:9-11 and the `logger` calls) and the FastMCP tool registration and transport are not part of this model.
- Only the driver failures the gateway reacts to are modelled: a refused connect, a failed statement, a failed commit, and a fetch without a result set. Creating a cursor, fetching rows, reading the row count and closing never fail in the model.
- What the database answers (rows, row counts, errors, timeouts firing) is an oracle. SQL meaning is not modelled, including the catalog query's template filter and ordering. The `statement_timeout` is modelled only as the command that sets it.
- Column values are passed through unchanged. The conversion of rows to dicts (server.py:143) is the identity here. Serialising values to the wire format is not modelled.
- Exception texts are the driver's own (`str(e)`); the model carries them as given.
- Each call opens its own connection and shares nothing else; calls running at the same time are not modelled.
