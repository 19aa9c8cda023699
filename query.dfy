/** One data query: decode its JSON, run it, read the result set row by row and
    transpose the rows into one frame of columns (`Db2Datasource.query`). */
module QueryExec {
  import opened Wrappers
  import opened DataFrames

  /** The per-query JSON payload `{"hide": bool, "queryText": string}`. */
  datatype QueryModel = QueryModel(hide: bool, queryText: string)

  /** One `rows.Next()` followed by `rows.Scan(...)`: the first column bound as a
      timestamp and the remaining ones as int64, or the scan error. */
  datatype ScanOutcome = Scanned(time: Timestamp, values: seq<Int64>) | ScanFailed(err: string)

  /** What `db.Query` hands back on success: the outcome of `rows.Columns()`
      and the rows `rows.Next()` delivers, in order; a fetch error ends that
      sequence just as the end of the data does. */
  datatype ResultSet = ResultSet(columns: Result<seq<string>, string>, rows: seq<ScanOutcome>)

  /** The connection as one query sees it: query text to the outcome of running it. */
  type Driver = string -> Result<ResultSet, string>

  /** The name `data.NewFrame` is given. */
  const FRAME_NAME: string := "response"

  predicate AllScanned(rows: seq<ScanOutcome>) {
    forall i :: 0 <= i < |rows| ==> rows[i].Scanned?
  }

  /** Every scanned row carries one int64 per non-leading column. */
  predicate RowsFit(rows: seq<ScanOutcome>, width: nat) {
    forall i :: 0 <= i < |rows| ==> rows[i].Scanned? ==> |rows[i].values| == width
  }

  /** Every row is scanned and has a value in int64 column `k`. */
  predicate HasColumn(rows: seq<ScanOutcome>, k: nat) {
    forall i :: 0 <= i < |rows| ==> rows[i].Scanned? && k < |rows[i].values|
  }

  /** What the function demands of the result set it actually reads: at least
      one column (with none, `make([]int64, len(colNames)-1)` panics), and the
      driver's rows as wide as its column list. */
  predicate Readable(decoded: Result<QueryModel, string>, db: Driver) {
    decoded.Success? && !decoded.value.hide ==>
      var executed := db(decoded.value.queryText);
      executed.Success? && executed.value.columns.Success? ==>
        |executed.value.columns.value| >= 1 &&
        RowsFit(executed.value.rows, |executed.value.columns.value| - 1)
  }

  /** The time series, built the way the loop appends to it: one timestamp per row. */
  function TimeColumn(rows: seq<ScanOutcome>): seq<Timestamp>
    requires AllScanned(rows)
  {
    if rows == [] then [] else TimeColumn(rows[..|rows| - 1]) + [rows[|rows| - 1].time]
  }

  /** The series of int64 column `k` (0 is the first column after the time column). */
  function IntColumn(rows: seq<ScanOutcome>, k: nat): seq<Int64>
    requires HasColumn(rows, k)
  {
    if rows == [] then [] else IntColumn(rows[..|rows| - 1], k) + [rows[|rows| - 1].values[k]]
  }

  /** The frame assembled from a fully scanned result set: the time field named
      after column 0, then one int64 field per remaining column, in column order. */
  function Transpose(colNames: seq<string>, rows: seq<ScanOutcome>): Frame
    requires |colNames| >= 1 && AllScanned(rows) && RowsFit(rows, |colNames| - 1)
  {
    Frame(FRAME_NAME,
          [TimeField(colNames[0], TimeColumn(rows))] +
          seq(|colNames| - 1, k requires 0 <= k < |colNames| - 1 && HasColumn(rows, k) =>
                Int64Field(colNames[k + 1], IntColumn(rows, k))))
  }

  /** The response `query` returns. Only a JSON decode failure attaches an
      error; a hidden query, a failed query, a failed `rows.Columns()` and a
      failed scan all give the empty, errorless response. */
  function QueryResponse(decoded: Result<QueryModel, string>, db: Driver): (r: DataResponse)
    requires Readable(decoded, db)
    ensures r.error.Some? <==> decoded.Failure?
    ensures decoded.Failure? ==> r.error == Some(decoded.error)
    ensures |r.frames| <= 1 && (r.error.Some? ==> r.frames == [])
  {
    match decoded
    case Failure(e) => DataResponse([], Some(e))
    case Success(qm) =>
      if qm.hide then EMPTY_RESPONSE
      else
        match db(qm.queryText)
        case Failure(_) => EMPTY_RESPONSE
        case Success(rs) =>
          match rs.columns
          case Failure(_) => EMPTY_RESPONSE
          case Success(colNames) =>
            if AllScanned(rs.rows) then DataResponse([Transpose(colNames, rs.rows)], None)
            else EMPTY_RESPONSE
  }

  /** The query ran, its columns were read and every row scanned. */
  predicate Succeeds(decoded: Result<QueryModel, string>, db: Driver) {
    && decoded.Success?
    && !decoded.value.hide
    && db(decoded.value.queryText).Success?
    && db(decoded.value.queryText).value.columns.Success?
    && AllScanned(db(decoded.value.queryText).value.rows)
  }

  /** Series read from `dataSeriesMap`; a missing key reads as the nil slice. */
  function Series(m: map<int, seq<Int64>>, k: int): seq<Int64> {
    if k in m then m[k] else []
  }

  /** The `for rows.Next()` loop of `query`: the timestamp of each row is
      appended to `timeSeries` and its int64 values to the per-position slices
      of `dataSeriesMap`; the first scan failure abandons the rows read so far. */
  method ScanRows(rows: seq<ScanOutcome>, width: nat)
    returns (scanned: bool, timeSeries: seq<Timestamp>, dataSeriesMap: map<int, seq<Int64>>)
    requires RowsFit(rows, width)
    ensures scanned <==> AllScanned(rows)
    ensures scanned ==> timeSeries == TimeColumn(rows)
    ensures scanned ==> forall k :: 0 <= k < width ==> HasColumn(rows, k) && Series(dataSeriesMap, k) == IntColumn(rows, k)
  {
    timeSeries, dataSeriesMap := [], map[];
    var i := 0;
    while i < |rows|
      invariant 0 <= i <= |rows|
      invariant AllScanned(rows[..i])
      invariant timeSeries == TimeColumn(rows[..i])
      invariant forall k :: 0 <= k < width ==> HasColumn(rows[..i], k) && Series(dataSeriesMap, k) == IntColumn(rows[..i], k)
    {
      var row := rows[i];
      if row.ScanFailed? {
        return false, timeSeries, dataSeriesMap;
      }
      assert rows[..i + 1][..i] == rows[..i];
      timeSeries := timeSeries + [row.time];
      var values := row.values;
      ghost var before := dataSeriesMap;
      var j := 0;
      while j < |values|
        invariant 0 <= j <= |values| == width
        invariant forall k :: 0 <= k < j ==> Series(dataSeriesMap, k) == Series(before, k) + [values[k]]
        invariant forall k :: j <= k < width ==> Series(dataSeriesMap, k) == Series(before, k)
      {
        dataSeriesMap := dataSeriesMap[j := Series(dataSeriesMap, j) + [values[j]]];
        j := j + 1;
      }
      forall k | 0 <= k < width
        ensures HasColumn(rows[..i + 1], k) && Series(dataSeriesMap, k) == IntColumn(rows[..i + 1], k)
      {
        IntColumnAppend(rows, i, k);
      }
      i := i + 1;
    }
    assert rows[..i] == rows;
    scanned := true;
  }

  /** The frame-building tail of `query`: the time field first, then one int64
      field per remaining column, named from the column metadata. */
  method AssembleFrame(colNames: seq<string>, rows: seq<ScanOutcome>, timeSeries: seq<Timestamp>, dataSeriesMap: map<int, seq<Int64>>)
    returns (frame: Frame)
    requires |colNames| >= 1 && AllScanned(rows) && RowsFit(rows, |colNames| - 1)
    requires timeSeries == TimeColumn(rows)
    requires forall k :: 0 <= k < |colNames| - 1 ==> HasColumn(rows, k) && Series(dataSeriesMap, k) == IntColumn(rows, k)
    ensures frame == Transpose(colNames, rows)
  {
    var fields := [TimeField(colNames[0], timeSeries)];
    var k := 0;
    while k < |colNames| - 1
      invariant 0 <= k <= |colNames| - 1
      invariant |fields| == k + 1 && fields[0] == TimeField(colNames[0], TimeColumn(rows))
      invariant forall c :: 0 <= c < k ==> fields[c + 1] == Int64Field(colNames[c + 1], IntColumn(rows, c))
    {
      fields := fields + [Int64Field(colNames[k + 1], Series(dataSeriesMap, k))];
      k := k + 1;
    }
    frame := Frame(FRAME_NAME, fields);
    assert frame.fields == Transpose(colNames, rows).fields;
  }

  /** `Db2Datasource.query`: decode, the early exits, then the row loop and
      the frame assembly. */
  method Query(decoded: Result<QueryModel, string>, db: Driver) returns (response: DataResponse)
    requires Readable(decoded, db)
    ensures response == QueryResponse(decoded, db)
  {
    response := EMPTY_RESPONSE;
    if decoded.Failure? {
      response := DataResponse([], Some(decoded.error));
      return;
    }
    var qm := decoded.value;
    if qm.hide {
      return;
    }
    var executed := db(qm.queryText);
    if executed.Failure? {
      return;
    }
    var rs := executed.value;
    if rs.columns.Failure? {
      return;
    }
    var colNames := rs.columns.value;
    var scanned, timeSeries, dataSeriesMap := ScanRows(rs.rows, |colNames| - 1);
    if !scanned {
      return;
    }
    var frame := AssembleFrame(colNames, rs.rows, timeSeries, dataSeriesMap);
    response := DataResponse([frame], None);
  }

  /** Reading row i extends int64 column k by that row's k-th value. */
  lemma IntColumnAppend(rows: seq<ScanOutcome>, i: nat, k: nat)
    requires i < |rows| && HasColumn(rows[..i], k) && rows[i].Scanned? && k < |rows[i].values|
    ensures HasColumn(rows[..i + 1], k)
    ensures IntColumn(rows[..i + 1], k) == IntColumn(rows[..i], k) + [rows[i].values[k]]
  {
    assert rows[..i + 1][..i] == rows[..i];
  }

  /** The time series holds one timestamp per row, row i's at position i. */
  lemma {:induction false} TimeColumnSpec(rows: seq<ScanOutcome>)
    requires AllScanned(rows)
    ensures |TimeColumn(rows)| == |rows|
    ensures forall i :: 0 <= i < |rows| ==> TimeColumn(rows)[i] == rows[i].time
  {
    if rows != [] {
      TimeColumnSpec(rows[..|rows| - 1]);
    }
  }

  /** Int64 column k holds one value per row, row i's k-th value at position i. */
  lemma {:induction false} IntColumnSpec(rows: seq<ScanOutcome>, k: nat)
    requires HasColumn(rows, k)
    ensures |IntColumn(rows, k)| == |rows|
    ensures forall i :: 0 <= i < |rows| ==> IntColumn(rows, k)[i] == rows[i].values[k]
  {
    if rows != [] {
      IntColumnSpec(rows[..|rows| - 1], k);
    }
  }

  /** The assembled frame: as many fields as columns, each named after its
      column in column order, the time field first, and every field as long
      as the result set, holding that column's values in row order. */
  lemma TransposeSpec(colNames: seq<string>, rows: seq<ScanOutcome>)
    requires |colNames| >= 1 && AllScanned(rows) && RowsFit(rows, |colNames| - 1)
    ensures var f := Transpose(colNames, rows);
      && f.name == FRAME_NAME
      && |f.fields| == |colNames|
      && (forall k :: 0 <= k < |colNames| ==> f.fields[k].name == colNames[k] && f.fields[k].Len() == |rows|)
      && f.fields[0].TimeField?
      && (forall i :: 0 <= i < |rows| ==> f.fields[0].times[i] == rows[i].time)
      && (forall k :: 1 <= k < |colNames| ==> f.fields[k].Int64Field?)
      && (forall k, i :: 1 <= k < |colNames| && 0 <= i < |rows| ==> f.fields[k].ints[i] == rows[i].values[k - 1])
  {
    var f := Transpose(colNames, rows);
    TimeColumnSpec(rows);
    forall k | 0 <= k < |colNames| - 1
      ensures |IntColumn(rows, k)| == |rows|
      ensures forall i :: 0 <= i < |rows| ==> IntColumn(rows, k)[i] == rows[i].values[k]
    {
      IntColumnSpec(rows, k);
    }
    assert forall k :: 1 <= k < |colNames| ==> f.fields[k] == Int64Field(colNames[k], IntColumn(rows, k - 1));
  }

  /** A query whose JSON does not decode carries the decode error and no
      frame, whatever the database would have answered. */
  lemma DecodeFailureNeverQueries(e: string, db1: Driver, db2: Driver)
    ensures QueryResponse(Failure(e), db1) == QueryResponse(Failure(e), db2) == DataResponse([], Some(e))
  {
  }

  /** A hidden query gives the empty, errorless response, whatever the database would have answered. */
  lemma HiddenNeverQueries(qm: QueryModel, db1: Driver, db2: Driver)
    requires qm.hide
    ensures QueryResponse(Success(qm), db1) == QueryResponse(Success(qm), db2) == EMPTY_RESPONSE
  {
  }

  /** A failed query or a failed `rows.Columns()` gives no frame and no error. */
  lemma ExecutionFailureIsEmpty(qm: QueryModel, db: Driver)
    requires !qm.hide
    requires db(qm.queryText).Failure? || db(qm.queryText).value.columns.Failure?
    ensures QueryResponse(Success(qm), db) == EMPTY_RESPONSE
  {
  }

  /** A scan failure on any row discards the rows read before it: no frame, no error. */
  lemma ScanFailureDiscardsRows(qm: QueryModel, db: Driver, i: nat)
    requires Readable(Success(qm), db) && !qm.hide
    requires db(qm.queryText).Success? && db(qm.queryText).value.columns.Success?
    requires i < |db(qm.queryText).value.rows| && db(qm.queryText).value.rows[i].ScanFailed?
    ensures QueryResponse(Success(qm), db) == EMPTY_RESPONSE
  {
  }

  /** A frame is produced exactly when the query ran, its columns were read and every row scanned. */
  lemma FrameIffSucceeds(decoded: Result<QueryModel, string>, db: Driver)
    requires Readable(decoded, db)
    ensures |QueryResponse(decoded, db).frames| == 1 <==> Succeeds(decoded, db)
    ensures Succeeds(decoded, db) ==> QueryResponse(decoded, db).error == None
  {
  }

  /** On success: exactly one frame of `len(colNames)` fields, named after the
      columns in order, each as long as the result set, field 0 holding the
      timestamps and field k the int64 values of column k, in row order. */
  lemma SuccessfulQuery(qm: QueryModel, db: Driver)
    requires Readable(Success(qm), db) && Succeeds(Success(qm), db)
    ensures var r := QueryResponse(Success(qm), db);
      var colNames := db(qm.queryText).value.columns.value;
      var rows := db(qm.queryText).value.rows;
      && r.error == None
      && |r.frames| == 1
      && |r.frames[0].fields| == |colNames|
      && (forall k :: 0 <= k < |colNames| ==> r.frames[0].fields[k].name == colNames[k] && r.frames[0].fields[k].Len() == |rows|)
      && r.frames[0].fields[0].TimeField?
      && (forall i :: 0 <= i < |rows| ==> r.frames[0].fields[0].times[i] == rows[i].time)
      && (forall k :: 1 <= k < |colNames| ==> r.frames[0].fields[k].Int64Field?)
      && (forall k, i :: 1 <= k < |colNames| && 0 <= i < |rows| ==> r.frames[0].fields[k].ints[i] == rows[i].values[k - 1])
  {
    TransposeSpec(db(qm.queryText).value.columns.value, db(qm.queryText).value.rows);
  }

  /** A result set with no rows gives a frame whose fields are all empty. */
  lemma ZeroRowsGiveEmptyFields(colNames: seq<string>)
    requires |colNames| >= 1
    ensures forall k :: 0 <= k < |colNames| ==> Transpose(colNames, []).fields[k].Len() == 0
  {
    TransposeSpec(colNames, []);
  }

  /** Three rows (t1, 10), (t2, 20), (t3, 30) under columns "time" and "value"
      become the fields time = [t1, t2, t3] and value = [10, 20, 30]. */
  lemma ThreeRowExample(t1: Timestamp, t2: Timestamp, t3: Timestamp)
    ensures Transpose(["time", "value"], [Scanned(t1, [10]), Scanned(t2, [20]), Scanned(t3, [30])]).fields
         == [TimeField("time", [t1, t2, t3]), Int64Field("value", [10, 20, 30])]
  {
    var rows := [Scanned(t1, [10]), Scanned(t2, [20]), Scanned(t3, [30])];
    assert rows[..2] == [Scanned(t1, [10]), Scanned(t2, [20])];
    assert rows[..2][..1] == [Scanned(t1, [10])];
    assert rows[..2][..1][..0] == [];
    assert TimeColumn(rows[..2][..1]) == [t1];
    assert TimeColumn(rows[..2]) == [t1, t2];
    assert IntColumn(rows[..2][..1], 0) == [10];
    assert IntColumn(rows[..2], 0) == [10, 20];
    var f := Transpose(["time", "value"], rows);
    assert f.fields[0] == TimeField("time", [t1, t2, t3]);
    assert f.fields[1] == Int64Field("value", [10, 20, 30]);
  }
}
