/** The earlier table loader, src/utils/vector_database.py: the same bucket
    lookup and the same flattening and padding as the current loader, run as
    one script over the records of `records_v1.0.json`. */
module VectorDatabase {
  import opened Json
  import opened Dicts
  import opened LoadVectorDatabase

  /** What the script hands to `create_table`: the `s3://` URI of the database
      and the table rows, or the first exception it raises. The lookup runs
      before the records are touched. */
  function Table(stage: string, dataPath: string, describe: string -> seq<Stack>, records: seq<Row>)
    : Result<(string, seq<Record>)>
  {
    match InstantiateDatabase(stage, dataPath, describe)
    case Err(e) => Err(e)
    case Ok(uri) =>
      match FlattenAll(records)
      case Err(e) => Err(e)
      case Ok(flat) => Ok((uri, PadAll(flat, UnionKeys(flat))))
  }

  /** The script, statement by statement: look the bucket up, flatten the
      records, gather the key set in a loop, pad. */
  method CreateTable(stage: string, dataPath: string, describe: string -> seq<Stack>, records: seq<Row>)
    returns (res: Result<(string, seq<Record>)>)
    ensures res == Table(stage, dataPath, describe, records)
  {
    var uri := InstantiateDatabase(stage, dataPath, describe);
    if uri.Err? {
      return Err(uri.error);
    }
    var data := FlattenAll(records);
    if data.Err? {
      return Err(data.error);
    }
    var keySet := CollectKeys(data.value);
    res := Ok((uri.value, PadAll(data.value, keySet)));
  }

  /** The script succeeds exactly when the stack has one `bucketname` output
      and every record has an embedding; a failed lookup wins over a missing
      embedding. On success the URI names that bucket and the rows are the
      current loader's: one per record, in order, all with the same keys
      (`vector` and every record key but `embedding`), `vector` holding the
      embedding unless the record had its own, every other original value kept
      and the added keys None. */
  lemma TableRows(stage: string, dataPath: string, describe: string -> seq<Stack>, records: seq<Row>)
    ensures Table(stage, dataPath, describe, records).Ok? <==>
      InstantiateDatabase(stage, dataPath, describe).Ok? &&
      forall i :: 0 <= i < |records| ==> "embedding" in Keys(records[i])
    ensures InstantiateDatabase(stage, dataPath, describe).Err? ==>
      Table(stage, dataPath, describe, records) == Err(InstantiateDatabase(stage, dataPath, describe).error)
    ensures Table(stage, dataPath, describe, records).Ok? ==>
      var (uri, rows) := Table(stage, dataPath, describe, records).value;
      uri == InstantiateDatabase(stage, dataPath, describe).value &&
      |rows| == |records| &&
      (forall i, j :: 0 <= i < |rows| && 0 <= j < |rows| ==> rows[i].Keys == rows[j].Keys) &&
      (forall i, k :: 0 <= i < |rows| ==>
        (k in rows[i] <==> k == "vector" || exists j :: 0 <= j < |records| && k in Keys(records[j]) && k != "embedding")) &&
      (forall i :: 0 <= i < |rows| ==>
        rows[i]["vector"] == if "vector" in Keys(records[i]) then Get(records[i], "vector") else Get(records[i], "embedding")) &&
      (forall i, k :: 0 <= i < |rows| && k in Keys(records[i]) && k != "embedding" ==> rows[i][k] == Get(records[i], k)) &&
      (forall i, k :: 0 <= i < |rows| && k in rows[i] && k !in Keys(records[i]) && k != "vector" ==> rows[i][k] == Null)
  {
    if Table(stage, dataPath, describe, records).Ok? {
      PreparedRows(records);
      assert Table(stage, dataPath, describe, records).value.1 == Prepared(records).value;
    }
  }
}
