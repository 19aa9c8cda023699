/** The batch handler (`Db2Datasource.QueryData`): every query of the request
    is run in order and its response stored under its RefID. */
module Batch {
  import opened Wrappers
  import opened DataFrames
  import opened QueryExec

  /** One `backend.DataQuery`: its RefID and the outcome of decoding its JSON payload. */
  datatype DataQuery = DataQuery(refId: string, decoded: Result<QueryModel, string>)

  /** No query after position i among the first n carries the same RefID. */
  predicate LastWithRefId(queries: seq<DataQuery>, i: nat, n: nat)
    requires i < n <= |queries|
  {
    forall j :: i < j < n ==> queries[j].refId != queries[i].refId
  }

  /** The RefIDs of the first n queries. */
  function RefIds(queries: seq<DataQuery>, n: nat): set<string>
    requires n <= |queries|
  {
    set i | 0 <= i < n :: queries[i].refId
  }

  /** `QueryData`: the response map has a key for exactly the RefIDs of the
      request, and under each key the response of the LAST query carrying
      that RefID (an earlier duplicate is overwritten). */
  method QueryData(queries: seq<DataQuery>, db: Driver) returns (responses: map<string, DataResponse>)
    requires forall i :: 0 <= i < |queries| ==> Readable(queries[i].decoded, db)
    ensures responses.Keys == RefIds(queries, |queries|)
    ensures forall i :: 0 <= i < |queries| && LastWithRefId(queries, i, |queries|) ==>
              queries[i].refId in responses && responses[queries[i].refId] == QueryResponse(queries[i].decoded, db)
  {
    responses := map[];
    var n := 0;
    while n < |queries|
      invariant 0 <= n <= |queries|
      invariant responses.Keys == RefIds(queries, n)
      invariant forall i :: 0 <= i < n && LastWithRefId(queries, i, n) ==>
                  queries[i].refId in responses && responses[queries[i].refId] == QueryResponse(queries[i].decoded, db)
    {
      var q := queries[n];
      var res := Query(q.decoded, db);
      responses := responses[q.refId := res];
      n := n + 1;
    }
  }

  /** Every RefID of a request has a last query carrying it, so every key of
      the response map holds the response of some query of the request. */
  lemma {:induction false} LastOccurrenceExists(queries: seq<DataQuery>, id: string)
    requires id in RefIds(queries, |queries|)
    ensures exists i :: 0 <= i < |queries| && queries[i].refId == id && LastWithRefId(queries, i, |queries|)
  {
    var n := |queries|;
    if queries[n - 1].refId == id {
      assert LastWithRefId(queries, n - 1, n);
    } else {
      var prefix := queries[..n - 1];
      var k :| 0 <= k < n && queries[k].refId == id;
      assert prefix[k].refId == id;
      LastOccurrenceExists(prefix, id);
      var i :| 0 <= i < |prefix| && prefix[i].refId == id && LastWithRefId(prefix, i, |prefix|);
      assert queries[i].refId == id && LastWithRefId(queries, i, n);
    }
  }
}
