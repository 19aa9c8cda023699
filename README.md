# Db2 datasource backend: verified model

This project models the backend of a Grafana datasource plugin for IBM Db2
(`pkg/db-2-datasource.go`). The plugin runs raw SQL queries and turns each
result set into one time-series frame. The first column of the result set
becomes a time field. Every other column becomes an int64 field.

The model covers four pieces of that file:

- **`query`** (module `QueryExec`). A query's JSON payload is decoded, and
  the query is skipped if it is hidden. Otherwise it runs, its column names
  are read, and its rows are scanned one at a time. Each row's timestamp is
  appended to a time series and each of its int64 values to a per-column
  series. The frame is then assembled from these series. `Query` keeps the
  source's loops: `ScanRows` is the `for rows.Next()` loop with the
  `dataSeriesMap` map, and `AssembleFrame` is the loop that appends fields.
  Each is proved against the declarative `Transpose` and `QueryResponse`
  functions, and the lemmas prove what those functions promise.
- **`QueryData`** (module `Batch`). The queries run in order, and each
  response is stored in a map under the query's RefID, so a later duplicate
  overwrites an earlier one.
- **`newDataSourceInstance`** (module `Instance`). The options are decoded,
  the password is looked up, and the connection string
  `HOSTNAME=..;PORT=..;DATABASE=..;UID=..;PWD=..` is built. A parser for
  that grammar acts as its inverse. It recovers the five values whenever
  none of them contains `;`.
- **`CheckHealth`** (module `Health`). The status stays Ok on every path.
  The message changes only when the probe's first row scans, because the
  loop closes the rows in its first iteration.

The database driver is abstracted:

- A `Driver` maps query text to the outcome of `db.Query`.
- A `ResultSet` holds the outcome of `rows.Columns()` and one `ScanOutcome`
  per row that `rows.Next()` delivers.
- JSON decoding is an input `Result`.
- Timestamps are an opaque type.

"The query is never run" is stated as "the response is the same whatever
the driver answers".

Only a JSON decode failure attaches an error. A failed query, a failed
`rows.Columns()` and a failed scan return the empty response with no error
(a failed `db.Query` then panics in the deferred `rows.Close()`; see Left out).
A zero-column result set panics at line 130. A failed instance lookup
returns `nil, nil`.

## Model

| member | source | states |
|---|---|---|
| QueryExec.QueryResponse | pkg/db-2-datasource.go:93-174 | an error is attached exactly when the JSON fails to decode, and it is that decode error; there is at most one frame, and none when there is an error |
| QueryExec.Query | pkg/db-2-datasource.go:93-174 | the imperative query (decode, early exits, row loop, field loop) returns exactly the response QueryResponse specifies |
| QueryExec.ScanRows | pkg/db-2-datasource.go:144-160 | the row loop succeeds exactly when every row scans; then the time series is the first column in row order, and the slice under key k of dataSeriesMap is int64 column k in row order |
| QueryExec.AssembleFrame | pkg/db-2-datasource.go:162-171 | the appended fields form the frame Transpose specifies: the time field first, then one int64 field per remaining column |
| QueryExec.IntColumnAppend | pkg/db-2-datasource.go:156-158 | scanning row i extends int64 column k by exactly that row's k-th value |
| QueryExec.TimeColumnSpec | pkg/db-2-datasource.go:145-154 | the time series has one entry per row, and entry i is row i's timestamp |
| QueryExec.IntColumnSpec | pkg/db-2-datasource.go:145-158 | int64 column k has one entry per row, and entry i is row i's k-th value (no sorting, no deduplication) |
| QueryExec.TransposeSpec | pkg/db-2-datasource.go:162-171 | the frame is named "response" and has len(colNames) fields; field k is named colNames[k] and holds one value per row; field 0 holds the timestamps and field k >= 1 holds column k's int64 values, in row order |
| QueryExec.DecodeFailureNeverQueries | pkg/db-2-datasource.go:98-103 | a decode failure gives no frames and that decode error, whatever the database would answer |
| QueryExec.HiddenNeverQueries | pkg/db-2-datasource.go:105-108 | a hidden query gives no frames and no error, whatever the database would answer |
| QueryExec.ExecutionFailureIsEmpty | pkg/db-2-datasource.go:110-125 | a failed query or a failed rows.Columns() gives no frames and a nil error |
| QueryExec.ScanFailureDiscardsRows | pkg/db-2-datasource.go:144-152 | a scan failure on any row gives no frames and a nil error, discarding the rows already read |
| QueryExec.FrameIffSucceeds | pkg/db-2-datasource.go:100-174 | a frame is produced if and only if the JSON decoded, the query is not hidden, the query ran, its columns were read and every row scanned; in that case the error is nil |
| QueryExec.SuccessfulQuery | pkg/db-2-datasource.go:120-174 | on success there is one frame, no error, and len(colNames) fields; these are named in column order, and each is as long as the result set and holds that column's values in row order |
| QueryExec.ZeroRowsGiveEmptyFields | pkg/db-2-datasource.go:162-169 | a result set with no rows gives all-empty fields |
| QueryExec.ThreeRowExample | pkg/db-2-datasource.go:144-171 | rows (t1,10),(t2,20),(t3,30) under columns time,value give time=[t1,t2,t3] and value=[10,20,30] |
| Batch.QueryData | pkg/db-2-datasource.go:74-84 | the response map's keys are exactly the request's RefIDs, and under each key is the response of the last query with that RefID |
| Batch.LastOccurrenceExists | pkg/db-2-datasource.go:77-82 | every RefID of the request has a last query carrying it, so every key holds some query's response |
| Instance.NewDataSourceInstance | pkg/db-2-datasource.go:265-290 | malformed options give no instance and the decode error; otherwise the instance keeps the datasource name, and its connection string is the fixed grammar over Host, Port, Database, User and the password, from which the five values parse back when none contains ';' |
| Instance.ConnectionStringRoundTrip | pkg/db-2-datasource.go:283 | parsing a built connection string gives back host, port, database, user and password, in order, when none of them contains ';' |
| Instance.SplitConnectionString | pkg/db-2-datasource.go:283 | splitting a built connection string on ';' gives exactly the five segments HOSTNAME=, PORT=, DATABASE=, UID=, PWD= with their values, in order, when no value contains ';' |
| Instance.SplitSegment | pkg/db-2-datasource.go:283 | a ';'-free value followed by ';' splits off as one whole segment of the connection string |
| Instance.MissingPasswordGivesEmptyPwd | pkg/db-2-datasource.go:280-283 | without a stored password the connection string ends in an empty `;PWD=` |
| Instance.ConnectionStringExample | pkg/db-2-datasource.go:283 | Host h, Port 5432, Database d, User u and password secret give exactly `HOSTNAME=h;PORT=5432;DATABASE=d;UID=u;PWD=secret` |
| Health.CheckHealth | pkg/db-2-datasource.go:180-248 | the status is Ok on every path; the message is the first row's timestamp after the success prefix when that row scanned, and "MESSAGE NOT SET YET" otherwise |
| Health.MessageSetIffScanned | pkg/db-2-datasource.go:223-236 | the message differs from its placeholder if and only if the probe ran, its columns were read and its first row scanned |
| Health.MessageCarriesTimestamp | pkg/db-2-datasource.go:230-233 | a success message is "Check succesful; current timestamp = " followed by the scanned value verbatim |
| Health.LaterRowsIgnored | pkg/db-2-datasource.go:223-236 | rows after the first never change the message, because the rows are closed inside the first iteration |

## Left out

- Grafana SDK plumbing is not modelled: `newDatasource`, `ServeOpts`, the instance manager's caching and replacement, and `Dispose`. These are lifecycle hooks owned by the library, and the plugin adds no logic to them.
- When instance lookup fails, `QueryData` and `CheckHealth` return `nil, nil`. This belongs to the SDK plumbing and is not modelled.
- Driver calls are not modelled: `db2.Pconnect("PoolSize=100")`, `pool.Open` with its lifetime option strings, and `db.Close`. Leasing and releasing connections is not modelled.
- `Instance.NewDataSourceInstance`: line 269 creates a new pool on every call, before the options are decoded at line 274, so a pool is created even for an instance whose options fail to decode; line 286 stores the pool in the instance. None of this is modelled: `InstanceSettings` keeps only the connection string and the name.
- The database is a function from query text to a result set. Two queries with the same text in one batch therefore see the same result. Changes to the database between queries are not modelled.
- A `Readable` precondition requires each scanned row to have exactly one int64 per non-leading column. The driver guarantees this, since it refuses a scan with the wrong number of targets.
- A result set with zero columns is excluded by `Readable`. In Go, `make([]int64, -1)` panics on it.
- `QueryExec.Query`: `defer rows.Close()` at line 112 is registered before the error check and runs when the function returns. When the query fails, the result set is nil, so that deferred call panics on return, after the return value is fixed. The model records that value, an empty response with no error, and does not model the panic.
- `QueryExec.ScanRows`: `rows` is the sequence of rows `rows.Next()` delivers. The loop at line 145 never calls `rows.Err()`, so a fetch error partway through the result set ends the loop just as the end of the data does. The program then returns, with no error attached, a frame of the rows read before the error. The model gives the same result for the shorter sequence and has no separate input for the fetch error, so "every row scanned" in `FrameIffSucceeds` means every delivered row.
- `Batch.QueryData`: the panic above passes through lines 77-84, so in the program a batch containing any query whose `db.Query` fails returns no response map at all. The model returns the full map, with the empty response under that query's RefID, where the program panics.
- `CheckHealth`: when `db.Prepare` fails, `st.Query()` is called on a nil statement, which panics. The model assumes preparation of the fixed probe statement succeeds, so its input starts at the outcome of running it.
- `CheckHealth`: line 221 logs `cols[0]`, so `ProbeReadable` requires at least one probe column.
- Logging is not modelled. Every `log.DefaultLogger` call is a side effect with no bearing on results.
- JSON unmarshalling is not modelled. Each decode is an input `Result`: a failure carries the error text, and a success carries the decoded fields.
- The `fmt.Sprintf` connection-string format is modelled as string concatenation.
- `time.Time` values are an opaque type. No arithmetic or ordering on them is modelled.
- The round trip of the connection string is proved only for values without `;`. The source does no escaping, so a value containing `;` yields a string the driver would split differently.
