/** The current loader, src/utils/load_vector_database.py: find the bucket from
    the stack outputs, build each record's text, attach its embedding, then
    flatten and pad the records into the table's rows. */
module LoadVectorDatabase {
  import opened Json
  import opened Strings
  import opened Dicts
  import opened Tokens

  // ---------------------------------------------------------------------
  // The bucket lookup of `instantiate_database`

  /** One entry of a CloudFormation stack's `Outputs`. */
  datatype StackOutput = StackOutput(outputKey: string, outputValue: string)

  /** A described stack; `outputs` is None when the stack has no `Outputs` key. */
  datatype Stack = Stack(outputs: Option<seq<StackOutput>>)

  const BucketOutputKey := "bucketname"

  /** The stack that belongs to a deployment stage. */
  function StackName(stage: string): string {
    Lower("wb-agrifoods-data-lab-" + stage)
  }

  /** `[o['OutputValue'] for o in outputs if o['OutputKey'] == 'bucketname']`. */
  function BucketCandidates(outputs: seq<StackOutput>): (vs: seq<string>)
    decreases |outputs|
  {
    if outputs == [] then []
    else
      (if outputs[0].outputKey == BucketOutputKey then [outputs[0].outputValue] else [])
      + BucketCandidates(outputs[1..])
  }

  /** `[bucket_name] = [...]`: the unpacking succeeds only on a one-element list. */
  function BucketName(outputs: seq<StackOutput>): Result<string> {
    var vs := BucketCandidates(outputs);
    if |vs| == 1 then Ok(vs[0]) else Err(UnpackError(|vs|))
  }

  /** `response['Stacks'][0]['Outputs']`. */
  function FirstStackOutputs(stacks: seq<Stack>): Result<seq<StackOutput>> {
    if stacks == [] then Err(IndexError)
    else if stacks[0].outputs.None? then Err(KeyError("Outputs"))
    else Ok(stacks[0].outputs.value)
  }

  /** `instantiate_database()`: the `s3://` URI the database is opened at.
      `describe` stands for `describe_stacks`, keyed by stack name. */
  function InstantiateDatabase(stage: string, dataPath: string, describe: string -> seq<Stack>): Result<string> {
    match FirstStackOutputs(describe(StackName(stage)))
    case Err(e) => Err(e)
    case Ok(outputs) =>
      match BucketName(outputs)
      case Err(e) => Err(e)
      case Ok(bucket) => Ok("s3://" + bucket + "/" + dataPath)
  }

  /** Exactly one output, the one at `i`, is keyed `bucketname`. */
  predicate OnlyBucketAt(outputs: seq<StackOutput>, i: int) {
    && 0 <= i < |outputs|
    && outputs[i].outputKey == BucketOutputKey
    && forall j :: 0 <= j < |outputs| && outputs[j].outputKey == BucketOutputKey ==> j == i
  }

  lemma {:induction false} NoBucketCandidates(outputs: seq<StackOutput>)
    ensures BucketCandidates(outputs) == [] <==>
      forall j :: 0 <= j < |outputs| ==> outputs[j].outputKey != BucketOutputKey
    decreases |outputs|
  {
    if outputs != [] {
      NoBucketCandidates(outputs[1..]);
      assert forall j :: 1 <= j < |outputs| ==> outputs[j] == outputs[1..][j - 1];
    }
  }

  lemma {:induction false} SingleBucketCandidate(outputs: seq<StackOutput>)
    ensures |BucketCandidates(outputs)| == 1 <==> exists i :: OnlyBucketAt(outputs, i)
    ensures forall i :: OnlyBucketAt(outputs, i) ==> BucketCandidates(outputs) == [outputs[i].outputValue]
    decreases |outputs|
  {
    if outputs != [] {
      var tail := outputs[1..];
      SingleBucketCandidate(tail);
      NoBucketCandidates(tail);
      assert forall j :: 1 <= j < |outputs| ==> outputs[j] == tail[j - 1];
      if outputs[0].outputKey == BucketOutputKey {
        if |BucketCandidates(outputs)| == 1 {
          assert OnlyBucketAt(outputs, 0);
        }
        forall i | OnlyBucketAt(outputs, i)
          ensures BucketCandidates(outputs) == [outputs[i].outputValue]
        {
          assert i == 0;
        }
      } else {
        if i :| OnlyBucketAt(tail, i) {
          assert OnlyBucketAt(outputs, i + 1);
        }
        if i :| OnlyBucketAt(outputs, i) {
          assert OnlyBucketAt(tail, i - 1);
        }
      }
    }
  }

  /** The lookup succeeds exactly when one output is keyed `bucketname`, and
      then yields that output's value; with none or several it fails. */
  lemma BucketNameExactlyOne(outputs: seq<StackOutput>)
    ensures BucketName(outputs).Ok? <==> exists i :: OnlyBucketAt(outputs, i)
    ensures forall i :: OnlyBucketAt(outputs, i) ==> BucketName(outputs) == Ok(outputs[i].outputValue)
    ensures BucketName(outputs).Err? ==> BucketName(outputs).error.UnpackError?
  {
    SingleBucketCandidate(outputs);
  }

  /** The stack name is the lower-case form of `wb-agrifoods-data-lab-<stage>`. */
  lemma StackNameLowerCase(stage: string)
    ensures |StackName(stage)| == 22 + |stage|
    ensures StackName(stage)[..22] == "wb-agrifoods-data-lab-"
    ensures StackName(stage)[22..] == Lower(stage)
    ensures forall i :: 0 <= i < |StackName(stage)| ==> !('A' <= StackName(stage)[i] <= 'Z')
  {
    var full := "wb-agrifoods-data-lab-" + stage;
    assert forall i :: 0 <= i < 22 ==> LowerChar(full[i]) == full[i];
  }

  // ---------------------------------------------------------------------
  // get_text_to_embed

  /** `f'{key}: {value}'` for each entry whose value is not None, in order. */
  function EntryLines(d: Row, repr: Value -> string): seq<string>
    decreases |d|
  {
    if d == [] then []
    else
      (if d[0].1 == Null then [] else [d[0].0 + ": " + Show(d[0].1, repr)])
      + EntryLines(d[1..], repr)
  }

  /** `get_text_to_embed(d)`: the entry lines joined by a newline and a space.
      `repr` stands for Python's `str()` of a value that is not a string. */
  function GetTextToEmbed(d: Row, repr: Value -> string): string {
    Join("\n ", EntryLines(d, repr))
  }

  /** The lines of a concatenation are the lines of its parts, in order. */
  lemma {:induction false} EntryLinesAppend(a: Row, b: Row, repr: Value -> string)
    ensures EntryLines(a + b, repr) == EntryLines(a, repr) + EntryLines(b, repr)
    decreases |a|
  {
    if a != [] {
      assert (a + b)[0] == a[0];
      assert (a + b)[1..] == a[1..] + b;
      EntryLinesAppend(a[1..], b, repr);
    } else {
      assert a + b == b;
    }
  }

  /** An entry whose value is None contributes no line. */
  lemma NoneEntriesSkipped(a: Row, k: string, b: Row, repr: Value -> string)
    ensures EntryLines(a + [(k, Null)] + b, repr) == EntryLines(a + b, repr)
  {
    EntryLinesAppend(a + [(k, Null)], b, repr);
    EntryLinesAppend(a, [(k, Null)], repr);
    EntryLinesAppend(a, b, repr);
  }

  /** An entry with a value contributes exactly `key: value`. */
  lemma ValueEntryLine(a: Row, k: string, v: Value, b: Row, repr: Value -> string)
    requires v != Null
    ensures EntryLines(a + [(k, v)] + b, repr)
      == EntryLines(a, repr) + [k + ": " + Show(v, repr)] + EntryLines(b, repr)
  {
    EntryLinesAppend(a + [(k, v)], b, repr);
    EntryLinesAppend(a, [(k, v)], repr);
  }

  lemma {:induction false} EntryLinesEmpty(d: Row, repr: Value -> string)
    ensures EntryLines(d, repr) == [] <==> forall i :: 0 <= i < |d| ==> d[i].1 == Null
    decreases |d|
  {
    if d != [] {
      EntryLinesEmpty(d[1..], repr);
      assert forall i :: 1 <= i < |d| ==> d[i] == d[1..][i - 1];
    }
  }

  /** The text is empty exactly when every value is None. */
  lemma TextToEmbedEmpty(d: Row, repr: Value -> string)
    ensures GetTextToEmbed(d, repr) == "" <==> forall i :: 0 <= i < |d| ==> d[i].1 == Null
  {
    EntryLinesEmpty(d, repr);
    var lines := EntryLines(d, repr);
    if lines != [] {
      JoinLongerThanHead("\n ", lines);
      NonNullLineNotEmpty(d, repr);
    }
  }

  lemma {:induction false} NonNullLineNotEmpty(d: Row, repr: Value -> string)
    requires EntryLines(d, repr) != []
    ensures EntryLines(d, repr)[0] != ""
    decreases |d|
  {
    if d[0].1 == Null {
      NonNullLineNotEmpty(d[1..], repr);
    }
  }

  lemma JoinLongerThanHead(sep: string, parts: seq<string>)
    requires parts != []
    ensures |Join(sep, parts)| >= |parts[0]|
  {
  }

  // ---------------------------------------------------------------------
  // generate_embeddings

  /** The embedding computed for one record:
      `get_embedding(get_tokens(get_text_to_embed(d)))`. */
  function RecordEmbedding(d: Row, repr: Value -> string, encode: string -> seq<int>,
                           embed: seq<int> -> Value): Value {
    embed(EmbeddingInput(GetTokens(GetTextToEmbed(d, repr), encode)))
  }

  /** `[{**d, 'embedding': e} for d, e in zip(records, embeddings)]`. */
  function MergeEmbeddings(records: seq<Row>, embeddings: seq<Value>): (out: seq<Row>)
    ensures |out| == if |records| < |embeddings| then |records| else |embeddings|
    ensures forall i :: 0 <= i < |out| ==> out[i] == Set(records[i], "embedding", embeddings[i])
  {
    var n := if |records| < |embeddings| then |records| else |embeddings|;
    seq(n, i requires 0 <= i < n => Set(records[i], "embedding", embeddings[i]))
  }

  /** `generate_embeddings(records)`: one embedding per record, in record order
      (the thread pool's `map` keeps the order), merged back by position. */
  function GenerateEmbeddings(records: seq<Row>, repr: Value -> string, encode: string -> seq<int>,
                              embed: seq<int> -> Value): seq<Row> {
    MergeEmbeddings(records, seq(|records|, i requires 0 <= i < |records| =>
      RecordEmbedding(records[i], repr, encode, embed)))
  }

  /** Record i comes back with `embedding` set to its own embedding, overriding
      any earlier value, and with every other key as it was. */
  lemma GenerateEmbeddingsMerge(records: seq<Row>, repr: Value -> string, encode: string -> seq<int>,
                                embed: seq<int> -> Value, i: int)
    requires 0 <= i < |records|
    ensures |GenerateEmbeddings(records, repr, encode, embed)| == |records|
    ensures ToMap(GenerateEmbeddings(records, repr, encode, embed)[i])
      == ToMap(records[i])["embedding" := RecordEmbedding(records[i], repr, encode, embed)]
  {
    SetToMap(records[i], "embedding", RecordEmbedding(records[i], repr, encode, embed));
  }

  // ---------------------------------------------------------------------
  // prep_records_for_insert

  /** `{'vector': r['embedding'], **{k: v for k, v in r.items() if k != 'embedding'}}`. */
  function Flatten(r: Row): (res: Result<Record>)
    ensures res.Ok? <==> "embedding" in Keys(r)
    ensures res.Err? ==> res.error == KeyError("embedding")
    ensures res.Ok? ==> res.value.Keys == Keys(r) - {"embedding"} + {"vector"}
    ensures res.Ok? ==>
      res.value["vector"] == if "vector" in Keys(r) then Get(r, "vector") else Get(r, "embedding")
    ensures res.Ok? ==> forall k :: k in Keys(r) && k != "embedding" ==> res.value[k] == Get(r, k)
  {
    if "embedding" !in Keys(r) then Err(KeyError("embedding"))
    else Ok(map["vector" := Get(r, "embedding")] + (ToMap(r) - {"embedding"}))
  }

  /** The flattening comprehension: it raises at the first record without an
      embedding; otherwise record i flattens to output i. */
  function FlattenAll(rs: seq<Row>): (res: Result<seq<Record>>)
    ensures res.Ok? <==> forall i :: 0 <= i < |rs| ==> "embedding" in Keys(rs[i])
    ensures res.Ok? ==> |res.value| == |rs|
    ensures res.Ok? ==> forall i :: 0 <= i < |rs| ==> Flatten(rs[i]) == Ok(res.value[i])
    decreases |rs|
  {
    if rs == [] then Ok([])
    else
      match Flatten(rs[0])
      case Err(e) => Err(e)
      case Ok(f) =>
        match FlattenAll(rs[1..])
        case Err(e) => Err(e)
        case Ok(fs) =>
          assert forall i :: 1 <= i < |rs| ==> rs[i] == rs[1..][i - 1];
          Ok([f] + fs)
  }

  /** What `prep_records_for_insert` returns: the flattened records, each padded
      with None to the union of all their keys. */
  function Prepared(rs: seq<Row>): Result<seq<Record>> {
    match FlattenAll(rs)
    case Err(e) => Err(e)
    case Ok(flat) => Ok(PadAll(flat, UnionKeys(flat)))
  }

  /** `prep_records_for_insert(records)`. */
  method PrepRecordsForInsert(records: seq<Row>) returns (res: Result<seq<Record>>)
    ensures res == Prepared(records)
  {
    var flat := FlattenAll(records);
    if flat.Err? {
      return Err(flat.error);
    }
    var keySet := CollectKeys(flat.value);
    res := Ok(PadAll(flat.value, keySet));
  }

  /** The table rows: one per record, in order; all with the same keys, which
      are `vector` and every key of every record but `embedding`; `vector` holds the embedding unless
      the record had its own `vector`; every other original value is kept; and
      the keys a record gained hold None. */
  lemma PreparedRows(rs: seq<Row>)
    requires forall i :: 0 <= i < |rs| ==> "embedding" in Keys(rs[i])
    ensures Prepared(rs).Ok?
    ensures |Prepared(rs).value| == |rs|
    ensures forall i, j :: 0 <= i < |rs| && 0 <= j < |rs| ==>
      Prepared(rs).value[i].Keys == Prepared(rs).value[j].Keys
    ensures forall i, k :: 0 <= i < |rs| ==>
      (k in Prepared(rs).value[i] <==>
        k == "vector" || exists j :: 0 <= j < |rs| && k in Keys(rs[j]) && k != "embedding")
    ensures forall i :: 0 <= i < |rs| ==>
      Prepared(rs).value[i]["vector"]
        == if "vector" in Keys(rs[i]) then Get(rs[i], "vector") else Get(rs[i], "embedding")
    ensures forall i, k :: 0 <= i < |rs| && k in Keys(rs[i]) && k != "embedding" ==>
      Prepared(rs).value[i][k] == Get(rs[i], k)
    ensures forall i, k ::
      0 <= i < |rs| && k in Prepared(rs).value[i] && k !in Keys(rs[i]) && k != "vector" ==>
      Prepared(rs).value[i][k] == Null
  {
    var flat := FlattenAll(rs).value;
    var rows := Prepared(rs).value;
    PaddedToUnion(flat);
    assert rows == PadAll(flat, UnionKeys(flat));
    forall i | 0 <= i < |rs|
      ensures rows[i].Keys == UnionKeys(flat)
      ensures rows[i]["vector"] == if "vector" in Keys(rs[i]) then Get(rs[i], "vector") else Get(rs[i], "embedding")
      ensures forall k :: k in Keys(rs[i]) && k != "embedding" ==> rows[i][k] == Get(rs[i], k)
      ensures forall k :: k in rows[i] && k !in Keys(rs[i]) && k != "vector" ==> rows[i][k] == Null
    {
      assert Flatten(rs[i]) == Ok(flat[i]);
    }
    forall i, k | 0 <= i < |rs|
      ensures k in rows[i] <==> k == "vector" || exists j :: 0 <= j < |rs| && k in Keys(rs[j]) && k != "embedding"
    {
      FlattenedKeys(rs, k);
    }
  }

  /** The union of the flattened key sets: `vector` and every original key but
      `embedding`. */
  lemma FlattenedKeys(rs: seq<Row>, k: string)
    requires rs != [] && forall i :: 0 <= i < |rs| ==> "embedding" in Keys(rs[i])
    ensures k in UnionKeys(FlattenAll(rs).value) <==>
      k == "vector" || exists j :: 0 <= j < |rs| && k in Keys(rs[j]) && k != "embedding"
  {
    var flat := FlattenAll(rs).value;
    forall i | 0 <= i < |rs| ensures flat[i].Keys == Keys(rs[i]) - {"embedding"} + {"vector"} {
      assert Flatten(rs[i]) == Ok(flat[i]);
    }
    UnionOfFlattened(rs, flat, k);
  }

  lemma UnionOfFlattened(rs: seq<Row>, flat: seq<Record>, k: string)
    requires |flat| == |rs| > 0
    requires forall i :: 0 <= i < |rs| ==> flat[i].Keys == Keys(rs[i]) - {"embedding"} + {"vector"}
    ensures k in UnionKeys(flat) <==>
      k == "vector" || exists j :: 0 <= j < |rs| && k in Keys(rs[j]) && k != "embedding"
  {
    UnionKeysSpec(flat, k);
    if k == "vector" {
      assert k in flat[0];
    } else if j :| 0 <= j < |rs| && k in Keys(rs[j]) && k != "embedding" {
      assert k in flat[j];
    }
  }

  // ---------------------------------------------------------------------
  // The script's entry point

  /** `json.loads(...)[:10]`: the script keeps the first ten records. */
  function FirstTen(records: seq<Row>): (kept: seq<Row>)
    ensures |kept| == if |records| > 10 then 10 else |records|
    ensures kept == records[..|kept|]
  {
    if |records| > 10 then records[..10] else records
  }

  /** `prep_records_for_insert(generate_embeddings(records))` on the kept records. */
  function MainRows(records: seq<Row>, repr: Value -> string, encode: string -> seq<int>,
                    embed: seq<int> -> Value): Result<seq<Record>> {
    Prepared(GenerateEmbeddings(FirstTen(records), repr, encode, embed))
  }

  /** Embedding first means the preparation cannot raise: one row per kept
      record, in order, `vector` holding that record's fresh embedding unless
      the record had its own `vector`, and every other original value kept. */
  lemma MainRowsPrepared(records: seq<Row>, repr: Value -> string, encode: string -> seq<int>,
                         embed: seq<int> -> Value)
    ensures MainRows(records, repr, encode, embed).Ok?
    ensures |MainRows(records, repr, encode, embed).value| == |FirstTen(records)|
    ensures forall i :: 0 <= i < |FirstTen(records)| ==>
      && "vector" in MainRows(records, repr, encode, embed).value[i]
      && MainRows(records, repr, encode, embed).value[i]["vector"]
        == if "vector" in Keys(records[i]) then Get(records[i], "vector")
           else RecordEmbedding(records[i], repr, encode, embed)
    ensures forall i, k :: 0 <= i < |FirstTen(records)| && k in Keys(records[i]) && k != "embedding" ==>
      && k in MainRows(records, repr, encode, embed).value[i]
      && MainRows(records, repr, encode, embed).value[i][k] == Get(records[i], k)
  {
    var kept := FirstTen(records);
    var gen := GenerateEmbeddings(kept, repr, encode, embed);
    forall i | 0 <= i < |kept|
      ensures Keys(gen[i]) == Keys(kept[i]) + {"embedding"}
      ensures forall k :: k != "embedding" ==> Get(gen[i], k) == Get(kept[i], k)
      ensures Get(gen[i], "embedding") == RecordEmbedding(kept[i], repr, encode, embed)
    {
      SetGet(kept[i], "embedding", RecordEmbedding(kept[i], repr, encode, embed));
    }
    PreparedRows(gen);
  }

  /** A record without an embedding makes the whole preparation raise. */
  lemma MissingEmbeddingRaises(rs: seq<Row>, i: int)
    requires 0 <= i < |rs| && "embedding" !in Keys(rs[i])
    ensures Prepared(rs) == Err(KeyError("embedding"))
  {
    FlattenAllFirstError(rs);
  }

  lemma {:induction false} FlattenAllFirstError(rs: seq<Row>)
    ensures FlattenAll(rs).Err? ==> FlattenAll(rs).error == KeyError("embedding")
    decreases |rs|
  {
    if rs != [] {
      FlattenAllFirstError(rs[1..]);
    }
  }
}
