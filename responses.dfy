/**
 * The two response records the gateway returns (dictionaries in the wire
 * format) and the messages they carry.
 */
module Responses {
  import opened Wrappers
  import opened Text
  import opened Decimal
  import opened Driver

  const StatusSuccess := "success"
  const StatusError := "error"

  /** The record `execute_sql` returns; every key is always present. */
  datatype QueryResponse = QueryResponse(
    status: string, rows: seq<Row>, rowCount: int, columns: seq<string>, message: string)

  /** The record `list_databases` returns; `count` only on success, `message` only on error. */
  datatype ListResponse = ListResponse(
    status: string, databases: seq<Value>, count: Option<int>, message: Option<string>)

  const ReadOnlyMessage := "Server is in read-only mode. " + "Only SELECT queries are allowed."
  const DatabaseErrorPrefix := "Database error: "
  const ErrorPrefix := "Error: "
  const SuccessPrefix := "Query executed successfully. "
  const RowsLead := SuccessPrefix + "Returned "
  const AffectedTail := " rows affected."

  /** The failure record of `execute_sql`: no rows, no columns, a zero count. */
  function QueryError(message: string): QueryResponse
  {
    QueryResponse(StatusError, [], 0, [], message)
  }

  /** `execute_sql` reports driver errors and all other exceptions under different prefixes. */
  function ErrorMessage(f: Exception): (m: string)
    ensures f.DriverError? ==> StartsWith(m, DatabaseErrorPrefix) && !StartsWith(m, ErrorPrefix)
    ensures f.OtherError? ==> StartsWith(m, ErrorPrefix) && !StartsWith(m, DatabaseErrorPrefix)
    ensures f.DriverError? ==> m[|DatabaseErrorPrefix|..] == f.text
    ensures f.OtherError? ==> m[|ErrorPrefix|..] == f.text
  {
    match f
    case DriverError(text) =>
      var m := DatabaseErrorPrefix + text;
      assert m[0] == 'D' && ErrorPrefix[0] == 'E';
      m
    case OtherError(text) =>
      var m := ErrorPrefix + text;
      assert m[0] == 'E' && DatabaseErrorPrefix[0] == 'D';
      m
  }

  /** The failure record of `list_databases`: the exception's text, no databases, no count. */
  function ListError(text: string): ListResponse
  {
    ListResponse(StatusError, [], None, Some(text))
  }

  function LimitNote(maxRows: nat): string
  {
    " (Limited to " + IntToString(maxRows) + " rows)"
  }

  /** The message for a row-returning statement, with the note when the cap cut rows off. */
  function RowsMessage(rowCount: nat, rowcount: int, maxRows: nat): (m: string)
    ensures StartsWith(m, RowsLead)
  {
    RowsLead + IntToString(rowCount) + " rows." + (if rowcount > maxRows then LimitNote(maxRows) else "")
  }

  /** The message for a statement without result columns. */
  function AffectedMessage(rowCount: int): (m: string)
    ensures StartsWith(m, SuccessPrefix) && EndsWith(m, AffectedTail)
  {
    SuccessPrefix + IntToString(rowCount) + AffectedTail
  }

  // ---------------------------------------------------------------------------
  // Properties

  /** The number of rows returned reads back from the message, just before ` rows.`. */
  lemma RowsCountReadsBack(rowCount: nat, rowcount: int, maxRows: nat)
    ensures var m := RowsMessage(rowCount, rowcount, maxRows);
      exists k | |RowsLead| <= k <= |m| ::
        ParseInt(m[|RowsLead|..k]) == Some(rowCount as int) && StartsWith(m[k..], " rows.")
  {
    var m := RowsMessage(rowCount, rowcount, maxRows);
    var number := IntToString(rowCount);
    var k := |RowsLead| + |number|;
    assert m[|RowsLead|..k] == number;
    assert m[k..][..|" rows."|] == " rows.";
    IntToStringRoundTrip(rowCount);
  }

  /** The affected-row count reads back from the text between the prefix and ` rows affected.`. */
  lemma AffectedCountReadsBack(rowCount: int)
    ensures var m := AffectedMessage(rowCount);
      |SuccessPrefix| <= |m| - |AffectedTail|
      && ParseInt(m[|SuccessPrefix|..|m| - |AffectedTail|]) == Some(rowCount)
  {
    var m := AffectedMessage(rowCount);
    assert m[|SuccessPrefix|..|m| - |AffectedTail|] == IntToString(rowCount);
    IntToStringRoundTrip(rowCount);
  }

  /** The truncation note is on the message exactly when the driver's row count exceeds the cap. */
  lemma LimitNoteIff(rowCount: nat, rowcount: int, maxRows: nat)
    ensures EndsWith(RowsMessage(rowCount, rowcount, maxRows), LimitNote(maxRows)) <==> rowcount > maxRows
  {
    var m := RowsMessage(rowCount, rowcount, maxRows);
    var note := LimitNote(maxRows);
    var base := SuccessPrefix + "Returned " + IntToString(rowCount) + " rows.";
    if rowcount > maxRows {
      assert m == base + note;
    } else {
      assert m == base;
      assert |note| <= |base| ==> base[|base| - |note|..][|note| - 1] == '.';
      assert note[|note| - 1] == ')';
    }
  }

  /** The two failure prefixes never meet: the message tells which kind of exception it was, and its text. */
  lemma ErrorMessageInjective(f: Exception, g: Exception)
    requires ErrorMessage(f) == ErrorMessage(g)
    ensures f == g
  {
    var m := ErrorMessage(f);
    match f
    case DriverError(t) =>
      assert m[0] == 'D';
      assert g.DriverError?;
      assert t == m[|DatabaseErrorPrefix|..] == g.text;
    case OtherError(t) =>
      assert m[0] == 'E';
      assert g.OtherError?;
      assert t == m[|ErrorPrefix|..] == g.text;
  }

  /** A caller can tell a read-only refusal from every exception the gateway reports. */
  lemma RefusalIsNotAnError(f: Exception)
    ensures ErrorMessage(f) != ReadOnlyMessage
  {
    assert ReadOnlyMessage[0] == 'S';
  }

  /** No success message reads as the read-only refusal. */
  lemma SuccessIsNotRefusal(rowCount: nat, rowcount: int, maxRows: nat, affected: int)
    ensures RowsMessage(rowCount, rowcount, maxRows) != ReadOnlyMessage
    ensures AffectedMessage(affected) != ReadOnlyMessage
  {
    assert ReadOnlyMessage[0] == 'S';
    assert RowsMessage(rowCount, rowcount, maxRows)[0] == 'Q';
    assert AffectedMessage(affected)[0] == 'Q';
  }
}
