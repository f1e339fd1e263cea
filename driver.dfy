/**
 * The database server as the gateway reaches it through the driver: one
 * connection and one dictionary cursor per call. What the server answers is
 * not modelled; it is a fixed script (an oracle) chosen by the environment.
 * Every step the gateway takes is appended to a log, so that the order of
 * connects, statements, commits and closes can be stated.
 */
module Driver {
  import opened Wrappers

  /** A column value as the driver hands it over. */
  datatype Value = Null | Bool(b: bool) | Int(i: int) | Str(s: string) | Other(repr: string)

  /** One result row, keyed by column name (a dictionary cursor's row). */
  type Row = map<string, Value>

  /** A raised exception: one of the driver's own errors, or any other exception. */
  datatype Exception = DriverError(text: string) | OtherError(text: string)

  /** What the server does with one statement on a cursor. */
  datatype Reply =
    | Described(columns: seq<string>, rows: seq<Row>, rowcount: int)
    | Undescribed(rowcount: int)
    | Raised(failure: Exception)

  datatype ConnectParams = ConnectParams(
    host: string, port: int, database: string, user: string, password: string,
    connectTimeout: int)

  /**
   * The oracle: whether a connection is refused, what each statement on a
   * given database yields, and whether a commit on a given database fails.
   */
  datatype Script = Script(
    refuse: ConnectParams -> Option<Exception>,
    respond: (string, string) -> Reply,
    commit: string -> Option<Exception>)

  datatype Event =
    | Connect(params: ConnectParams)
    | OpenCursor
    | Execute(sql: string)
    | Describe
    | FetchMany(size: nat)
    | FetchAll
    | ReadRowCount
    | Commit
    | CloseCursor
    | CloseConnection

  /** The steps taken so far, newest last. */
  datatype Log = Start | After(earlier: Log, step: Event)

  /** The steps of a log, oldest first. */
  function Events(l: Log): seq<Event>
  {
    match l
    case Start => []
    case After(earlier, e) => Events(earlier) + [e]
  }

  /** The log `l` with its beginning replaced by `start`: the same steps taken after `start`. */
  function Graft(start: Log, l: Log): Log
  {
    match l
    case Start => start
    case After(earlier, e) => After(Graft(start, earlier), e)
  }

  /** Steps taken after `start` are appended to the steps of `start`. */
  lemma {:induction false} GraftEvents(start: Log, l: Log)
    ensures Events(Graft(start, l)) == Events(start) + Events(l)
  {
    match l
    case Start =>
    case After(earlier, e) =>
      GraftEvents(start, earlier);
  }

  /** The driver's complaint when rows are fetched after a statement that returned none. */
  const NoResults := "no results to fetch"

  function Take<T>(s: seq<T>, n: nat): seq<T>
  {
    if n < |s| then s[..n] else s
  }

  class Server {
    const script: Script
    var log: Log

    // the open connection and its cursor
    var database: string
    var description: Option<seq<string>>
    var unread: seq<Row>
    var rowcount: int

    constructor (script: Script)
      ensures this.script == script && log == Start
    {
      this.script := script;
      log := Start;
      database := "";
      description := None;
      unread := [];
      rowcount := -1;
    }

    /** Opens a connection; the script decides whether the server refuses it. */
    method Connect(params: ConnectParams) returns (refused: Option<Exception>)
      modifies this`log, this`database
      ensures log == After(old(log), Event.Connect(params))
      ensures refused == script.refuse(params)
      ensures database == params.database
    {
      log := After(log, Event.Connect(params));
      refused := script.refuse(params);
      database := params.database;
    }

    /** A new cursor has no result and a row count of -1. */
    method OpenCursor()
      modifies this`log, this`description, this`unread, this`rowcount
      ensures log == After(old(log), Event.OpenCursor)
      ensures description == None && unread == [] && rowcount == -1
    {
      log := After(log, Event.OpenCursor);
      description, unread, rowcount := None, [], -1;
    }

    /** Runs one statement; a failed statement leaves the cursor without a result. */
    method Execute(sql: string) returns (raised: Option<Exception>)
      modifies this`log, this`description, this`unread, this`rowcount
      ensures log == After(old(log), Event.Execute(sql))
      ensures match script.respond(database, sql)
        case Described(columns, rows, n) =>
          raised == None && description == Some(columns) && unread == rows && rowcount == n
        case Undescribed(n) =>
          raised == None && description == None && unread == [] && rowcount == n
        case Raised(f) =>
          raised == Some(f) && description == None && unread == [] && rowcount == -1
    {
      log := After(log, Event.Execute(sql));
      match script.respond(database, sql)
      case Described(columns, rows, n) =>
        raised := None;
        description, unread, rowcount := Some(columns), rows, n;
      case Undescribed(n) =>
        raised := None;
        description, unread, rowcount := None, [], n;
      case Raised(f) =>
        raised := Some(f);
        description, unread, rowcount := None, [], -1;
    }

    method Description() returns (d: Option<seq<string>>)
      modifies this`log
      ensures log == After(old(log), Describe) && d == description
    {
      log := After(log, Describe);
      d := description;
    }

    /** Hands over at most `size` of the rows not yet read. */
    method FetchMany(size: nat) returns (rows: Result<seq<Row>, Exception>)
      modifies this`log, this`unread
      ensures log == After(old(log), Event.FetchMany(size))
      ensures description == None ==>
        rows == Failure(DriverError(NoResults)) && unread == old(unread)
      ensures description != None ==>
        rows == Success(Take(old(unread), size)) && old(unread) == rows.value + unread
    {
      log := After(log, Event.FetchMany(size));
      if description == None {
        rows := Failure(DriverError(NoResults));
      } else {
        var got := Take(unread, size);
        rows := Success(got);
        unread := unread[|got|..];
      }
    }

    /** Hands over every row not yet read. */
    method FetchAll() returns (rows: Result<seq<Row>, Exception>)
      modifies this`log, this`unread
      ensures log == After(old(log), Event.FetchAll)
      ensures description == None ==>
        rows == Failure(DriverError(NoResults)) && unread == old(unread)
      ensures description != None ==> rows == Success(old(unread)) && unread == []
    {
      log := After(log, Event.FetchAll);
      if description == None {
        rows := Failure(DriverError(NoResults));
      } else {
        rows := Success(unread);
        unread := [];
      }
    }

    method RowCount() returns (n: int)
      modifies this`log
      ensures log == After(old(log), ReadRowCount) && n == rowcount
    {
      log := After(log, ReadRowCount);
      n := rowcount;
    }

    method Commit() returns (raised: Option<Exception>)
      modifies this`log
      ensures log == After(old(log), Event.Commit) && raised == script.commit(database)
    {
      log := After(log, Event.Commit);
      raised := script.commit(database);
    }

    method CloseCursor()
      modifies this`log
      ensures log == After(old(log), Event.CloseCursor)
    {
      log := After(log, Event.CloseCursor);
    }

    method CloseConnection()
      modifies this`log
      ensures log == After(old(log), Event.CloseConnection)
    {
      log := After(log, Event.CloseConnection);
    }
  }
}
