/** The first table loader, utils/vector_database.py: each record written by
    the embedding script becomes a table row made of its embedding, under
    `vector`, and the entries of its `metadata`; the rows are then padded to
    one key set. */
module MetadataVectorDatabase {
  import opened Json
  import opened Dicts
  import opened Tokens
  import Embeddings

  /** `{'vector': r['embedding'], **r['metadata']}`: `r['embedding']` is read
      first, then `r['metadata']`, which must be a dict. */
  function FlattenWithMetadata(r: Row): (res: Result<Record>)
    ensures res.Ok? <==> "embedding" in Keys(r) && "metadata" in Keys(r) && Get(r, "metadata").Obj?
    ensures "embedding" !in Keys(r) ==> res == Err(KeyError("embedding"))
    ensures "embedding" in Keys(r) && "metadata" !in Keys(r) ==> res == Err(KeyError("metadata"))
    ensures "embedding" in Keys(r) && "metadata" in Keys(r) && !Get(r, "metadata").Obj? ==> res == Err(NotAMapping)
    ensures res.Ok? ==>
      var meta := Get(r, "metadata").entries;
      && res.value.Keys == Keys(meta) + {"vector"}
      && res.value["vector"] == (if "vector" in Keys(meta) then Get(meta, "vector") else Get(r, "embedding"))
      && forall k :: k in Keys(meta) ==> res.value[k] == Get(meta, k)
  {
    if "embedding" !in Keys(r) then Err(KeyError("embedding"))
    else if "metadata" !in Keys(r) then Err(KeyError("metadata"))
    else if !Get(r, "metadata").Obj? then Err(NotAMapping)
    else Ok(map["vector" := Get(r, "embedding")] + ToMap(Get(r, "metadata").entries))
  }

  /** The rows the script hands to `create_table`, or the first exception. */
  function Table(records: seq<Row>): Result<seq<Record>> {
    match MapAll(records, FlattenWithMetadata)
    case Err(e) => Err(e)
    case Ok(flat) => Ok(PadAll(flat, UnionKeys(flat)))
  }

  /** The script: flatten every record, gather the key set in a loop, pad. */
  method CreateTable(records: seq<Row>) returns (res: Result<seq<Record>>)
    ensures res == Table(records)
  {
    var data := MapEach(records, FlattenWithMetadata);
    if data.Err? {
      return Err(data.error);
    }
    var keySet := CollectKeys(data.value);
    res := Ok(PadAll(data.value, keySet));
  }

  /** The metadata dict of a record that flattens. */
  function Metadata(r: Row): Row
    requires Get(r, "metadata").Obj?
  {
    Get(r, "metadata").entries
  }

  /** Every row has the keys `vector` and every key of some record's metadata. */
  lemma TableKeys(records: seq<Row>)
    requires Table(records).Ok?
    ensures forall i :: 0 <= i < |records| ==> Get(records[i], "metadata").Obj?
    ensures |Table(records).value| == |records|
    ensures forall i, k :: 0 <= i < |records| ==>
      (k in Table(records).value[i] <==>
        k == "vector" || exists j :: 0 <= j < |records| && k in Keys(Metadata(records[j])))
  {
    var flat := MapAll(records, FlattenWithMetadata).value;
    var rows := Table(records).value;
    PaddedToUnion(flat);
    forall i, k | 0 <= i < |records|
      ensures k in rows[i] <==> k == "vector" || exists j :: 0 <= j < |records| && k in Keys(Metadata(records[j]))
    {
      UnionKeysSpec(flat, k);
      if k in rows[i] && k != "vector" {
        var j :| 0 <= j < |flat| && k in flat[j];
        assert k in Keys(Metadata(records[j]));
      }
      if exists j :: 0 <= j < |records| && k in Keys(Metadata(records[j])) {
        var j :| 0 <= j < |records| && k in Keys(Metadata(records[j]));
        assert k in flat[j];
      }
      if k == "vector" && |flat| > 0 {
        assert k in flat[0];
      }
    }
  }

  /** The table rows: one per record, in order; every row has the same keys,
      namely `vector` and every key of some record's metadata, so top-level
      keys such as `text_to_embed` and `tokens` are not copied; `vector` holds
      the embedding unless the metadata has its own `vector`; every metadata
      value is kept; the keys a row gained hold None. */
  lemma TableRows(records: seq<Row>)
    requires Table(records).Ok?
    ensures |Table(records).value| == |records|
    ensures forall i :: 0 <= i < |records| ==> Get(records[i], "metadata").Obj?
    ensures forall i, k :: 0 <= i < |records| ==>
      (k in Table(records).value[i] <==>
        k == "vector" || exists j :: 0 <= j < |records| && k in Keys(Metadata(records[j])))
    ensures forall i :: 0 <= i < |records| ==>
      Table(records).value[i]["vector"]
        == if "vector" in Keys(Metadata(records[i])) then Get(Metadata(records[i]), "vector")
           else Get(records[i], "embedding")
    ensures forall i, k :: 0 <= i < |records| && k in Keys(Metadata(records[i])) ==>
      Table(records).value[i][k] == Get(Metadata(records[i]), k)
    ensures forall i, k ::
      (0 <= i < |records| && k in Table(records).value[i] && k != "vector" && k !in Keys(Metadata(records[i]))) ==>
      Table(records).value[i][k] == Null
  {
    TableKeys(records);
    PaddedToUnion(MapAll(records, FlattenWithMetadata).value);
  }

  /** A record without an embedding, or whose metadata is missing or not a
      dict, makes the script raise, and the first such record decides how. */
  lemma FirstBadRecordRaises(records: seq<Row>, i: int)
    requires 0 <= i < |records| && FlattenWithMetadata(records[i]).Err?
    requires forall j :: 0 <= j < i ==> FlattenWithMetadata(records[j]).Ok?
    ensures Table(records) == Err(FlattenWithMetadata(records[i]).error)
  {
    var res := MapAll(records, FlattenWithMetadata);
    var n :| 0 <= n < |records| && FlattenWithMetadata(records[n]) == Err(res.error) &&
      forall j :: 0 <= j < n ==> FlattenWithMetadata(records[j]).Ok?;
    assert n == i;
  }

  /** The two scripts fit together: the rows the embedding script writes
      always flatten, and row i's `vector` is record i's embedding of its
      tokens cut to 8191 (unless its metadata has a `vector`), next to its
      metadata, `type` included. */
  lemma GeneratedRecordsFlatten(rs: seq<Embeddings.EmbeddingRecord>, embed: seq<int> -> Value)
    ensures Table(Embeddings.GenerateEmbeddings(rs, embed)).Ok?
    ensures forall i :: 0 <= i < |rs| ==>
      var row := Table(Embeddings.GenerateEmbeddings(rs, embed)).value[i];
      && row["vector"] == (if "vector" in Keys(rs[i].metadata) then Get(rs[i].metadata, "vector")
                           else embed(EmbeddingInput(rs[i].tokens)))
      && forall k :: k in Keys(rs[i].metadata) ==> row[k] == Get(rs[i].metadata, k)
  {
    var written := Embeddings.GenerateEmbeddings(rs, embed);
    Embeddings.GeneratedRows(rs, embed);
    assert forall i :: 0 <= i < |written| ==> FlattenWithMetadata(written[i]).Ok?;
    TableRows(written);
  }
}
