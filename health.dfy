/** The health check (`Db2Datasource.CheckHealth`): run the timestamp probe
    and report what it saw in the message; the status is never changed. */
module Health {
  import opened Wrappers

  /** `backend.HealthStatus`. */
  datatype HealthStatus = Unknown | Ok | Error

  /** `backend.CheckHealthResult`. */
  datatype CheckHealthResult = CheckHealthResult(status: HealthStatus, message: string)

  /** What the prepared probe statement hands back when it runs: the outcome
      of `rows.Columns()` and, per row, the outcome of scanning its single
      column into a string. */
  datatype ProbeRows = ProbeRows(columns: Result<seq<string>, string>, rows: seq<Result<string, string>>)

  const NOT_SET_MESSAGE: string := "MESSAGE NOT SET YET"
  const SUCCESS_PREFIX: string := "Check succesful; current timestamp = "

  /** The probe's column list is logged by its first entry, so a successful
      `rows.Columns()` must name at least one column. */
  predicate ProbeReadable(probe: Result<ProbeRows, string>) {
    probe.Success? && probe.value.columns.Success? ==> |probe.value.columns.value| >= 1
  }

  /** The probe ran, its columns were read, and its first row scanned. */
  predicate FirstRowScanned(probe: Result<ProbeRows, string>) {
    && probe.Success?
    && probe.value.columns.Success?
    && |probe.value.rows| >= 1
    && probe.value.rows[0].Success?
  }

  /** The message the health check reports: the first row's timestamp when
      it scanned, the initial placeholder otherwise. */
  function HealthMessage(probe: Result<ProbeRows, string>): string {
    if FirstRowScanned(probe) then SUCCESS_PREFIX + probe.value.rows[0].value else NOT_SET_MESSAGE
  }

  /** `CheckHealth`: the `for rows.Next()` loop closes the rows in its first
      iteration, so only the first row is ever scanned; the status stays Ok
      on every path. */
  method CheckHealth(probe: Result<ProbeRows, string>) returns (result: CheckHealthResult)
    requires ProbeReadable(probe)
    ensures result.status == Ok
    ensures result.message == HealthMessage(probe)
  {
    var status := Ok;
    var message := NOT_SET_MESSAGE;
    if probe.Success? {
      var rs := probe.value;
      if rs.columns.Success? {
        var closed := false;
        var i := 0;
        while !closed && i < |rs.rows|
          invariant 0 <= i <= |rs.rows| && i <= 1
          invariant closed <==> i == 1
          invariant message == if i == 1 && rs.rows[0].Success? then SUCCESS_PREFIX + rs.rows[0].value else NOT_SET_MESSAGE
        {
          var scanned := rs.rows[i];
          if scanned.Success? {
            message := SUCCESS_PREFIX + scanned.value;
          }
          closed := true;
          i := i + 1;
        }
      }
    }
    result := CheckHealthResult(status, message);
  }

  /** The message leaves its placeholder exactly when the first probe row scanned. */
  lemma MessageSetIffScanned(probe: Result<ProbeRows, string>)
    ensures HealthMessage(probe) != NOT_SET_MESSAGE <==> FirstRowScanned(probe)
  {
    if FirstRowScanned(probe) {
      assert HealthMessage(probe)[0] == 'C' != NOT_SET_MESSAGE[0];
    }
  }

  /** A successful message carries the scanned timestamp verbatim after the fixed prefix. */
  lemma MessageCarriesTimestamp(probe: Result<ProbeRows, string>)
    requires FirstRowScanned(probe)
    ensures SUCCESS_PREFIX <= HealthMessage(probe)
    ensures HealthMessage(probe)[|SUCCESS_PREFIX|..] == probe.value.rows[0].value
  {
  }

  /** Rows after the first never affect the message. */
  lemma LaterRowsIgnored(cols: seq<string>, first: Result<string, string>, rest1: seq<Result<string, string>>, rest2: seq<Result<string, string>>)
    ensures HealthMessage(Success(ProbeRows(Success(cols), [first] + rest1)))
         == HealthMessage(Success(ProbeRows(Success(cols), [first] + rest2)))
  {
  }
}
