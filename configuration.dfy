/**
 * The gateway's settings, loaded once at start-up and never changed, and the
 * defaults that `config.get(key, default)` supplies for the optional keys.
 */
module Configuration {
  import opened Wrappers
  import opened Text
  import opened Decimal

  /** The optional keys are `None` when absent from the settings. */
  datatype Config = Config(
    host: string,
    port: int,
    user: string,
    password: string,
    readOnly: Option<bool>,
    queryTimeout: Option<int>,
    maxRows: Option<nat>)

  const DefaultReadOnly := false
  const DefaultQueryTimeout := 30
  const DefaultMaxRows := 1000

  function ReadOnly(c: Config): (r: bool)
    ensures c.readOnly.Some? ==> r == c.readOnly.value
    ensures c.readOnly.None? ==> r == DefaultReadOnly
  {
    c.readOnly.GetOr(DefaultReadOnly)
  }

  /** Seconds; used both as the connect timeout and, times 1000, as the statement timeout. */
  function QueryTimeout(c: Config): (r: int)
    ensures c.queryTimeout.Some? ==> r == c.queryTimeout.value
    ensures c.queryTimeout.None? ==> r == DefaultQueryTimeout
  {
    c.queryTimeout.GetOr(DefaultQueryTimeout)
  }

  function MaxRows(c: Config): (r: nat)
    ensures c.maxRows.Some? ==> r == c.maxRows.value
    ensures c.maxRows.None? ==> r == DefaultMaxRows
  {
    c.maxRows.GetOr(DefaultMaxRows)
  }

  const SetTimeoutPrefix := "SET statement_timeout = "

  /** The session command run before every caller statement. */
  function SetTimeoutStatement(c: Config): (s: string)
    ensures StartsWith(s, SetTimeoutPrefix) && |s| > |SetTimeoutPrefix|
    ensures s[|SetTimeoutPrefix|] == '-' <==> QueryTimeout(c) < 0
  {
    SetTimeoutPrefix + IntToString(QueryTimeout(c) * 1000)
  }

  // ---------------------------------------------------------------------------
  // Properties

  /** With no optional key set: writable, 30-second timeouts, a 1000-row cap. */
  lemma UnsetDefaults(c: Config)
    requires c.readOnly == None && c.queryTimeout == None && c.maxRows == None
    ensures !ReadOnly(c) && QueryTimeout(c) == 30 && MaxRows(c) == 1000
    ensures SetTimeoutStatement(c) == "SET statement_timeout = 30000"
  {
    assert NatToString(30000) == "30000" by {
      assert NatToString(3) == "3";
      assert NatToString(30) == NatToString(3) + "0";
      assert NatToString(300) == NatToString(30) + "0";
      assert NatToString(3000) == NatToString(300) + "0";
    }
  }

  /** The server reads the statement timeout back as `query_timeout * 1000` milliseconds. */
  lemma SetTimeoutReadsBack(c: Config)
    ensures StartsWith(SetTimeoutStatement(c), SetTimeoutPrefix)
    ensures ParseInt(SetTimeoutStatement(c)[|SetTimeoutPrefix|..]) == Some(1000 * QueryTimeout(c))
  {
    var s := SetTimeoutStatement(c);
    assert s[|SetTimeoutPrefix|..] == IntToString(QueryTimeout(c) * 1000);
    IntToStringRoundTrip(QueryTimeout(c) * 1000);
  }
}
