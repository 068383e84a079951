# wb-agrifood-backend: a verified model of the record pipeline and the thread runner

This project models, in Dafny, the two pieces of logic in the World Bank
agrifood assistant backend that stand apart from the OpenAI, LanceDB, AWS and
FastAPI glue.

1. **The thread runner** (`src/lambda/thread_runner.py`). `process_thread_run`
   polls an assistant run until its status is exactly `completed`. On
   `requires_action` it answers each tool call in order: it decodes the call's
   JSON arguments, looks the name up in a six-entry function mapping, invokes
   the function and submits one output. The five catalog helpers return the
   decoded body on HTTP 200 and None otherwise. `get_rag_matches` strips
   `vector` from every search result.
2. **The record preparation for the vector table**, spread over four loader
   scripts:
   - `utils/embeddings.py` picks each item's text through a
     description/name/summary fallback chain, derives a type from the file
     name, keeps only items with text and attaches an embedding.
   - `src/utils/embeddings_v1.0.py` tags rows with a type derived from the
     file name, backfills ids (from `dataset_id` or a YouTube link), joins
     values into `text_to_embed`, pads, and rejects over-long token lists.
   - `src/utils/load_vector_database.py` and `src/utils/vector_database.py`
     find the bucket from the stack outputs, flatten `embedding` into
     `vector` and pad every row to the union key set.
   - `utils/vector_database.py` flattens `embedding` and `metadata` into a
     row and pads.

Python values are `Json.Value`. A dict whose order matters is a `Dicts.Row`:
its entries in insertion order, where `d.get(k)` is the last entry for `k`
and assignment overwrites in place or appends. Once order no longer matters
it is a `Dicts.Record` (a map). Every exception the model raises is a
`Json.Error` constructor, and operations that can raise return a
`Json.Result`. Of the external calls, `requests.post` and the knowledge base's
embedding and search may raise; the others are taken to succeed (see
"Left out").

The outside world is passed in as functions:
- the HTTP client (which may raise) and the JSON decoder;
- Python's `str()` of a non-string value;
- the tokenizer (`encode`) and the embeddings API (`embed`);
- the vector search;
- CloudFormation's `describe_stacks`;
- file loading.

The remote run is a scripted trace of the states successive retrievals
return. What the runner does is a log of invocations and submissions.

Loops in the source are methods with loop invariants, proved equal to a
specification function; the properties are lemmas about those functions:
- the polling loop: `ThreadRunner.ProcessThreadRun`;
- the tool-call loop: `ThreadRunner.RunBatch`, for any loop body, and
  `ThreadRunner.RunToolCalls`, which runs it with `ThreadRunner.HandleToolCall`;
- the key-set loop: `Dicts.CollectKeys`;
- the file loops: `Embeddings.ReadFiles` and `EmbeddingsV1.ReadFiles`;
- the per-row loops of the first script: `Json.MapEach`;
- `get_text_to_embed`'s step-by-step reassignment: `Embeddings.GetTextToEmbed`.

Modules:
- `json.dfy`: values, truthiness, errors, and the first-error map.
- `strings.dfy`: `join`, `split`, `replace`, `[:-1]`, `lower`.
- `dicts.dfy`: rows, records, key union and padding.
- `tokens.dfy`: `get_tokens` and the truncating `get_embedding`.
- `thread_runner.dfy`, `load_vector_database.dfy`, `embeddings.dfy`,
  `embeddings_v1.dfy`, `vector_database.dfy` and
  `metadata_vector_database.dfy`: one each per source file above.

## Model

| member | source | states |
|---|---|---|
| ThreadRunner.Lookup | src/lambda/thread_runner.py:27-31 | an exception of `requests.post` escapes; otherwise a status other than 200 gives None, and a 200 gives the decoded body, or raises when the body does not decode |
| ThreadRunner.NonOkStatusesIndistinguishable | src/lambda/thread_runner.py:31 | any two non-200 responses give the caller the same answer, None |
| ThreadRunner.NullBodyLooksLikeFailure | src/lambda/thread_runner.py:31 | a 200 whose body is JSON null is indistinguishable from a failed request |
| ThreadRunner.CatalogFunctionsStatusRule | src/lambda/thread_runner.py:27-63 | each of the five catalog functions lets the request's exception escape, answers None on a non-200 status and the decoded body on 200 |
| ThreadRunner.GetRagMatches | src/lambda/thread_runner.py:76-88 | embeds the query (raising if the API raises), runs the built search (raising if it raises) and returns each result without `vector`, in order; its properties are stated by `ThreadRunner.KnowledgeBaseMatches` |
| ThreadRunner.Invoke | src/lambda/thread_runner.py:121-152 | binds the decoded arguments as keyword arguments: a non-dict raises `NotAMapping`, keys outside the signature or missing required keys raise `BadArguments`, otherwise the named function runs; see `ThreadRunner.CatalogFunctionsStatusRule` and `ThreadRunner.MisfitArgumentsRaise` |
| ThreadRunner.RagQuery | src/lambda/thread_runner.py:76-81 | the search uses the cosine metric and the given limit, and gets the `type = '<datatype>'` prefilter exactly when `datatype` is truthy |
| ThreadRunner.StripVector | src/lambda/thread_runner.py:83-85 | a stripped result has no `vector` key and every other key of the search result with the same value |
| ThreadRunner.KnowledgeBaseMatches | src/lambda/thread_runner.py:76-108 | `search_knowledge_base` asks for 5 results, filters on type only for a truthy datatype, and returns one vector-free dict per search result, in order |
| ThreadRunner.FunctionMappingExactlySix | src/lambda/thread_runner.py:121-128 | the mapping has exactly the six tool names, each bound to the function of that name |
| ThreadRunner.HandleToolCall | src/lambda/thread_runner.py:143-155 | one pass of the loop body: decode the arguments, check the name, announce and invoke, submit one output; its properties are stated by `ThreadRunner.DecodeBeforeNameCheck`, `ThreadRunner.MisfitArgumentsRaise` and the batch lemmas |
| ThreadRunner.MisfitArgumentsRaise | src/lambda/thread_runner.py:150-152 | arguments that do not fit the signature raise `BadArguments` after the `Calling function` announcement, and nothing is submitted |
| ThreadRunner.HandleBatch | src/lambda/thread_runner.py:139-155 | the tool-call loop over one batch, stopping at the first exception; its properties are stated by `ThreadRunner.BatchInOrder` and `ThreadRunner.BatchStopsAtFirstFailure` |
| ThreadRunner.Poll | src/lambda/thread_runner.py:133-158 | the polling loop over the scripted retrievals, ending on `completed`, on an exception, or when the trace runs out; its properties are stated by `ThreadRunner.OnlyCompletedExits` and the lemmas after it |
| ThreadRunner.RunBatch | src/lambda/thread_runner.py:139-155 | the loop over a batch, for any loop body, returns the events of each call in turn up to and including the first call that raises, and that call's exception, as the generic batch specification says |
| ThreadRunner.RunToolCalls | src/lambda/thread_runner.py:139-155 | the tool-call loop produces exactly the events and the exception of the batch specification |
| ThreadRunner.ProcessThreadRun | src/lambda/thread_runner.py:131-158 | the polling loop ends as the poll specification says, with the same log of invocations and submissions |
| ThreadRunner.OnlyCompletedExits | src/lambda/thread_runner.py:133-135 | the loop returns normally only at the first retrieved state whose status is exactly `completed` |
| ThreadRunner.OtherStatusesPollAgain | src/lambda/thread_runner.py:135-158 | any status other than `completed` and `requires_action` only leads to the next retrieval |
| ThreadRunner.TerminalLookingStatusesNeverExit | src/lambda/thread_runner.py:135-158 | a run that stays `failed`, `cancelled`, `expired` or the like keeps the runner polling with no effect |
| ThreadRunner.AlreadyCompletedDoesNothing | src/lambda/thread_runner.py:133-135 | a run completed at the first retrieval invokes nothing and submits nothing |
| ThreadRunner.BatchInOrder | src/lambda/thread_runner.py:139-155 | a batch that raises nothing invokes its calls in the given order, each followed by one submission with that call's id and a one-element output list |
| ThreadRunner.BatchStopsAtFirstFailure | src/lambda/thread_runner.py:139-155 | a batch whose call k raises keeps exactly the events of the first k calls plus those of call k, and raises call k's exception |
| ThreadRunner.UnknownFunctionAbortsBatch | src/lambda/thread_runner.py:147-148 | an unknown name raises before that call is invoked or submitted; earlier submissions stay |
| ThreadRunner.DecodeBeforeNameCheck | src/lambda/thread_runner.py:143-148 | malformed arguments raise the decoding error even when the name is unknown |
| ThreadRunner.BatchSubmissionsAnswerCalls | src/lambda/thread_runner.py:112-117 | every submission of a batch carries the runner's thread, the run's id and one output for a call of that batch |
| ThreadRunner.SubmissionsAnswerObservedCalls | src/lambda/thread_runner.py:137-155 | every submission of a whole poll answers a tool call of a run seen in state `requires_action` |
| ThreadRunner.OneToolCallScenario | src/lambda/thread_runner.py:131-158 | the trace queued, in_progress, requires_action (one call), completed gives one invocation, one submission, then exit |
| ThreadRunner.UnregisteredFunctionScenario | src/lambda/thread_runner.py:145-148 | a call to an unregistered name raises `UnknownFunction` and submits nothing |
| Tokens.TokenizerInput | utils/embeddings.py:20-21 | the text sent to the tokenizer has every newline replaced by a space and no other change |
| Tokens.NewlinesCountAsSpaces | utils/embeddings.py:20-23 | two texts that differ only by newlines versus spaces give the same tokens |
| Tokens.EmbeddingInput | utils/embeddings.py:28-30 | the tokens sent are the first 8191 when there are more, and all of them otherwise |
| Tokens.GetEmbedding | src/utils/load_vector_database.py:89-99 | the current loader embeds its tokens cut to 8191 |
| Tokens.EmbeddingInputStable | src/utils/load_vector_database.py:91-93 | a list of at most 8191 tokens is sent unchanged, and cutting twice is cutting once |
| LoadVectorDatabase.BucketName | src/utils/load_vector_database.py:31-33 | the single-element unpacking of the `bucketname` outputs; its properties are stated by `LoadVectorDatabase.BucketNameExactlyOne` |
| LoadVectorDatabase.InstantiateDatabase | src/utils/load_vector_database.py:25-35 | `s3://<bucket>/<data path>` for the bucket of the first stack found under the lower-cased stack name, or the lookup's exception |
| LoadVectorDatabase.StackNameLowerCase | src/utils/load_vector_database.py:28 | the stack name is `wb-agrifoods-data-lab-` followed by the lower-cased stage, with no upper-case letter |
| LoadVectorDatabase.NoBucketCandidates | src/utils/load_vector_database.py:31-33 | no bucket value is found exactly when no output has key `bucketname` |
| LoadVectorDatabase.SingleBucketCandidate | src/utils/load_vector_database.py:31-33 | exactly one value is found exactly when exactly one output has key `bucketname`, and it is that output's value |
| LoadVectorDatabase.BucketNameExactlyOne | src/utils/load_vector_database.py:31-33 | the unpacking succeeds exactly when one output has key `bucketname`, gives that output's value, and otherwise fails as an unpacking error |
| LoadVectorDatabase.EntryLinesAppend | src/utils/load_vector_database.py:77-80 | the `key: value` lines of two dicts laid end to end are the lines of each, in order |
| LoadVectorDatabase.NoneEntriesSkipped | src/utils/load_vector_database.py:79 | an entry whose value is None contributes no line |
| LoadVectorDatabase.ValueEntryLine | src/utils/load_vector_database.py:79 | an entry whose value is not None contributes the line `key: value`, in place |
| LoadVectorDatabase.EntryLinesEmpty | src/utils/load_vector_database.py:77-80 | there are no lines exactly when every value is None |
| LoadVectorDatabase.GetTextToEmbed | src/utils/load_vector_database.py:77-80 | the `key: value` lines of the entries whose value is not None, joined by a newline and a space; its properties are stated by the lemmas around it |
| LoadVectorDatabase.TextToEmbedEmpty | src/utils/load_vector_database.py:77-80 | the text to embed is empty exactly when every value is None |
| LoadVectorDatabase.MergeEmbeddings | src/utils/load_vector_database.py:47-49 | the merge has as many rows as the shorter of its two inputs, as `zip` does, and row i is record i with `embedding` set to embedding i |
| LoadVectorDatabase.GenerateEmbeddings | src/utils/load_vector_database.py:38-50 | one embedding per record, in record order, merged back by position; its properties are stated by `LoadVectorDatabase.GenerateEmbeddingsMerge` |
| LoadVectorDatabase.GenerateEmbeddingsMerge | src/utils/load_vector_database.py:38-50 | output i is record i with `embedding` set to record i's embedding, overriding an existing key, and the count is kept |
| LoadVectorDatabase.Flatten | src/utils/load_vector_database.py:56 | flattening raises on a missing `embedding`; otherwise it drops `embedding`, adds `vector` holding the embedding unless the record has its own `vector`, and keeps every other value |
| LoadVectorDatabase.FlattenAll | src/utils/load_vector_database.py:55-58 | the comprehension succeeds exactly when every record has an embedding, then keeps count and order |
| LoadVectorDatabase.Prepared | src/utils/load_vector_database.py:53-67 | the flattened records padded to the union of their keys, or the flattening's exception; its properties are stated by `LoadVectorDatabase.PreparedRows` |
| LoadVectorDatabase.PrepRecordsForInsert | src/utils/load_vector_database.py:53-67 | `prep_records_for_insert` computes the flattened, padded rows of its specification |
| LoadVectorDatabase.PreparedRows | src/utils/load_vector_database.py:53-67 | the prepared rows keep count and order; every row's keys are exactly `vector` plus every key of every record except `embedding`; `vector` holds the embedding unless the record had its own; every original value is kept, and added keys hold None |
| LoadVectorDatabase.FlattenedKeys | src/utils/load_vector_database.py:55-66 | the key set gathered from the flattened records is `vector` plus every record key except `embedding` |
| LoadVectorDatabase.MainRowsPrepared | src/utils/load_vector_database.py:107-110 | on the first ten records, embedding and then preparing never raises, and gives one row per kept record, in order, with `vector` holding the record's fresh embedding unless it had its own `vector` and every other original value kept |
| LoadVectorDatabase.MissingEmbeddingRaises | src/utils/load_vector_database.py:56 | one record without an embedding makes the preparation raise `KeyError('embedding')` |
| Dicts.SetGet | utils/embeddings.py:85 | `{**d, k: v}` has d's keys plus k, k maps to v, and every other key keeps its value |
| Dicts.UnionKeysSpec | src/utils/load_vector_database.py:64-66 | a key is in the key set exactly when some record has it |
| Dicts.CollectKeys | src/utils/load_vector_database.py:64-66 | the key-set loop ends with the union of all records' keys |
| Dicts.Pad | src/utils/load_vector_database.py:67 | a padded record has the key set plus its own keys, keeps its own values and holds None in the others |
| Dicts.PaddedToUnion | src/utils/load_vector_database.py:67 | padding to the union keeps count and order, gives every record exactly the union key set, keeps original values and holds None only in added keys |
| Strings.Split | utils/embeddings.py:78 | `split` gives at least one part, no part holds the separator, and joining the parts with it gives the input back |
| Embeddings.FirstTruthy | utils/embeddings.py:41-49 | the value found is the first truthy one among the keys tried, in order, or a falsy value when none is truthy |
| Embeddings.GetTextToEmbed | utils/embeddings.py:39-52 | `get_text_to_embed`'s step-by-step reassignment computes its specification |
| Embeddings.TextToEmbed | utils/embeddings.py:39-52 | the first truthy value among `description`, `name`, `summary`, `Project Development Objective` and `exerpt`, else None, raising on an item that is not a dict; its properties are stated by `Embeddings.FallbackChain` |
| Embeddings.FallbackChain | utils/embeddings.py:41-52 | the text is `description` if truthy, else `name`, else `summary`, else `Project Development Objective`, else `exerpt`, and None when all are falsy |
| Embeddings.TypeFromFileName | utils/embeddings.py:78 | the last `_`-separated part of the file name with every `s.json` removed; its properties are stated by `Embeddings.TypeIsLastPart` and `Embeddings.TypeExamples` |
| Embeddings.TypeIsLastPart | utils/embeddings.py:78 | the type of `<prefix>_<t>s.json` is `t` when `t` has no `_` and no `.` |
| Embeddings.TypeExamples | utils/embeddings.py:78 | `wb_ag_projects_datasets.json` gives `dataset`, `wb_youtube_videos.json` gives `video`, `wb_ag_apps.json` gives `app` |
| Embeddings.Payload | utils/embeddings.py:71-76 | what the loop iterates over: a dict payload's truthy `data` entry, else its values; any other payload as it is; its properties are stated by `Embeddings.PayloadShapes` |
| Embeddings.PayloadShapes | utils/embeddings.py:72-76 | a dict payload stands for its truthy `data` entry, and otherwise for its values |
| Embeddings.ItemRecords | utils/embeddings.py:80-90 | one file's comprehension succeeds exactly when every item is a dict whose text, when truthy, is a string; it never yields more records than items |
| Embeddings.ItemRecord | utils/embeddings.py:82-88 | the record one item contributes: none for falsy text, an exception for a non-dict item or non-string text, else text, tokens and typed metadata; its properties are stated by `Embeddings.ItemRecordBuilt` |
| Embeddings.ItemRecordBuilt | utils/embeddings.py:80-90 | an item yields no record exactly when its text is falsy, and otherwise the record built from it |
| Embeddings.ItemRecordsFilter | utils/embeddings.py:80-90 | the records of a file are built from its items that have text, one each, in file order, skipping none |
| Embeddings.RecordMetadata | utils/embeddings.py:85 | a record's metadata is its item with `type` set to the file's type, overriding any existing `type` |
| Embeddings.PrepFiles | utils/embeddings.py:57-92 | the records of the given files, file by file, or the first file's exception; its properties are stated by `Embeddings.PrepFilesStopsAtError` and `Embeddings.PrepFilesRecords` |
| Embeddings.ReadFiles | utils/embeddings.py:58-90 | the file loop over any file list extends the records file by file and stops at the first exception, as its specification says |
| Embeddings.PrepData | utils/embeddings.py:55-92 | `prep_data` runs the file loop over its eight data files and returns its specification's records or exception |
| Embeddings.PrepFilesStopsAtError | utils/embeddings.py:58-90 | once a file raises, the later files change nothing |
| Embeddings.FileRecordsFromFile | utils/embeddings.py:70-90 | every record of a file was built from one of that file's items, typed after the file |
| Embeddings.PrepFilesRecords | utils/embeddings.py:55-92 | every record `prep_data` returns was built from an item with text of one of the files |
| Embeddings.EmbeddedFields | utils/embeddings.py:116 | a written row holds the embedding of the record's tokens cut to 8191 and the record's metadata, under exactly four keys |
| Embeddings.GenerateEmbeddings | utils/embeddings.py:113-116 | one row per record, in order, holding the embedding of its cut tokens in front of its fields; its properties are stated by `Embeddings.GeneratedRows` |
| Embeddings.GeneratedRows | utils/embeddings.py:113-116 | row i of `generate_embeddings` is built from record i, with that record's embedding and metadata |
| Json.MapAll | src/utils/embeddings_v1.0.py:94-105 | mapping a raising function over a list succeeds exactly when every element succeeds, then keeps count and order; otherwise it raises the first element's exception, in list order |
| Json.MapEach | src/utils/embeddings_v1.0.py:65-85 | the per-row loop computes the first-error map |
| EmbeddingsV1.FileType | src/utils/embeddings_v1.0.py:56-58 | the file name with every `wb_` and `ag_` removed, cut at the first `.`, minus its last character; its properties are stated by `EmbeddingsV1.FileTypeOfStem` and `EmbeddingsV1.FileTypeExamples` |
| EmbeddingsV1.FileTypeOfStem | src/utils/embeddings_v1.0.py:56-58 | a name `wb_<stem>s.<ext>` or `wb_ag_<stem>s.<ext>` has type `<stem>` when `<stem>s.<ext>` holds no `w` and no `g` and the stem no `.` |
| EmbeddingsV1.FileTypeExamples | src/utils/embeddings_v1.0.py:34-40 | `wb_ag_ext_papers.csv` gives `ext_paper` and `wb_youtube_videos.json` gives `youtube_video` |
| EmbeddingsV1.TypedRow | src/utils/embeddings_v1.0.py:54-59 | a loaded row gains `type` set to its file's type, overriding any existing `type`, and keeps every other value |
| EmbeddingsV1.LoadFiles | src/utils/embeddings_v1.0.py:43-62 | the typed rows of the given files, file by file, raising on the first empty file; its properties are stated by `EmbeddingsV1.LoadSucceeds` and `EmbeddingsV1.LoadedRows` |
| EmbeddingsV1.ReadFiles | src/utils/embeddings_v1.0.py:43-62 | the file loop over any file list extends `data` file by file and raises on an empty file, as its specification says |
| EmbeddingsV1.LoadData | src/utils/embeddings_v1.0.py:34-62 | the script's loop over its five data files computes the loading specification for them |
| EmbeddingsV1.LoadSucceeds | src/utils/embeddings_v1.0.py:43-62 | loading succeeds exactly when no file is empty |
| EmbeddingsV1.LoadedRows | src/utils/embeddings_v1.0.py:52-62 | every gathered row is a row of one of the files, tagged with that file's type |
| EmbeddingsV1.Backfill | src/utils/embeddings_v1.0.py:65-82 | one step of the backfill loop on one dict: `KeyError` for a missing `type` or `link`, `NotAString` for a link that is not a str, and the `IndexError` of the link split; its properties are stated by the three lemmas below |
| EmbeddingsV1.BackfillKeepsOthers | src/utils/embeddings_v1.0.py:65-82 | the backfill leaves a record with a truthy id unchanged, removes no key and changes only `id`, `video_id` and `timestamp` |
| EmbeddingsV1.BackfillFromDatasetId | src/utils/embeddings_v1.0.py:66-67 | a falsy id next to a truthy `dataset_id` becomes that `dataset_id` |
| EmbeddingsV1.YoutubeFields | src/utils/embeddings_v1.0.py:69-82 | video id, timestamp and id computed from a link, raising `IndexError` without a second `&` segment; its properties are stated by `EmbeddingsV1.YoutubeLink` and `EmbeddingsV1.YoutubeLinkWithoutAmpersand` |
| EmbeddingsV1.YoutubeLink | src/utils/embeddings_v1.0.py:68-82 | the link `...watch?v=<vid>&t=<ts><c>` gives video id `<vid>`, timestamp `<ts>` and id `<vid>_<ts>` |
| EmbeddingsV1.YoutubeExample | src/utils/embeddings_v1.0.py:68-82 | `...watch?v=abc&t=30s` gives `abc`, `30` and `abc_30` |
| EmbeddingsV1.YoutubeLinkWithoutAmpersand | src/utils/embeddings_v1.0.py:72-77 | a link with no `&` raises `IndexError` when the timestamp is computed |
| EmbeddingsV1.BackfillYoutube | src/utils/embeddings_v1.0.py:68-82 | a YouTube record with no id gets `video_id`, `timestamp` and `id` from its link, and raises when the link has no `&` |
| EmbeddingsV1.Strs | src/utils/embeddings_v1.0.py:85 | the values can be joined exactly when all are strings, and then in the same order |
| EmbeddingsV1.WithTextToEmbed | src/utils/embeddings_v1.0.py:84-85 | the dict with `text_to_embed` set to the `'. '`-join of its values, raising on a value that is not a str; its properties are stated by `EmbeddingsV1.TextToEmbedJoinsValues` |
| EmbeddingsV1.TextToEmbedJoinsValues | src/utils/embeddings_v1.0.py:84-85 | `text_to_embed` is the `'. '`-join of all the values held before the assignment, which succeeds exactly when all are strings; every other key is unchanged |
| EmbeddingsV1.TruncationUnreachable | src/utils/embeddings_v1.0.py:19-23 | `get_embedding` succeeds exactly on at most 8191 tokens and then sends what the truncating version would, so the truncation line is dead |
| EmbeddingsV1.Embedding | src/utils/embeddings_v1.0.py:19-29 | more than 8191 tokens raise `TooManyTokens`, otherwise the tokens are embedded unchanged; its properties are stated by `EmbeddingsV1.TruncationUnreachable` |
| EmbeddingsV1.Script | src/utils/embeddings_v1.0.py:32-105 | the padded rows and their embeddings, or the first exception of loading, backfill, joining or embedding, in that order; its properties are stated by `EmbeddingsV1.ScriptOutcome` |
| EmbeddingsV1.Run | src/utils/embeddings_v1.0.py:32-105 | the whole script, loop by loop, computes the padded rows and embeddings of its specification, or its first exception |
| EmbeddingsV1.ScriptOutcome | src/utils/embeddings_v1.0.py:84-105 | when the script finishes, all rows have the same keys including `type` and `text_to_embed`, and there is one embedding per row, made from that row's text within the token limit |
| VectorDatabase.Table | src/utils/vector_database.py:17-41 | the database URI and the flattened, padded rows, or the lookup's exception before the flattening's; its properties are stated by `VectorDatabase.TableRows` |
| VectorDatabase.CreateTable | src/utils/vector_database.py:17-41 | the script computes the database URI and the padded rows of its specification, or its first exception |
| VectorDatabase.TableRows | src/utils/vector_database.py:17-41 | the script succeeds exactly when the stack has one `bucketname` output and every record has an embedding, and a failed lookup wins; the rows keep count and order, share one key set, which is exactly `vector` plus every record key except `embedding`, hold the embedding in `vector` unless overridden, keep original values and hold None only in added keys |
| MetadataVectorDatabase.FlattenWithMetadata | utils/vector_database.py:17 | a row is `vector` plus the metadata's keys; `vector` holds the embedding unless the metadata has its own; a missing `embedding`, a missing `metadata` or a metadata that is not a dict raise, in that order |
| MetadataVectorDatabase.Table | utils/vector_database.py:14-26 | the flattened rows padded to the union of their keys, or the first record's flattening exception; its properties are stated by `MetadataVectorDatabase.TableRows` |
| MetadataVectorDatabase.CreateTable | utils/vector_database.py:14-26 | the script computes the padded rows of its specification, or its first exception |
| MetadataVectorDatabase.TableRows | utils/vector_database.py:17-26 | rows keep count and order; every row's keys are exactly `vector` and the keys of some record's metadata, so the record's own `text_to_embed` and `tokens` are not copied; metadata values are kept and added keys hold None |
| MetadataVectorDatabase.FirstBadRecordRaises | utils/vector_database.py:17 | the first record that cannot be flattened decides the exception |
| MetadataVectorDatabase.GeneratedRecordsFlatten | utils/vector_database.py:17 | every row the first embedding script writes flattens, with `vector` holding its embedding unless its metadata has a `vector`, and every metadata value next to it |

## Left out

- The OpenAI, CloudFormation, HTTP, LanceDB and tokenizer calls are function
  parameters. Their internals, the search ranking and the cosine metric are
  not modelled.
- `json.dumps` of a tool output is not modelled: a submission carries the
  Python value itself.
- The `ThreadPoolExecutor` fan-outs are sequential. In
  `src/utils/embeddings_v1.0.py` it is `Json.MapAll`, which raises the first
  exception in list order, as `list(executor.map(...))` reports it. In
  `src/utils/load_vector_database.py` it is a sequence in record order with no
  exception path, because the embeddings API is taken to succeed there (see
  below). Concurrency itself is not modelled.
- LoadVectorDatabase.GenerateEmbeddings: the embeddings API call
  (`src/utils/load_vector_database.py:95-99`) is taken to succeed; a network or
  API error is not modelled.
- Tokens.GetEmbedding: the embeddings API call is taken to succeed.
- Embeddings.GenerateEmbeddings: the embeddings API call
  (`utils/embeddings.py:32-36`) is taken to succeed.
- EmbeddingsV1.Embedding: only the token-length exception is modelled; the
  embeddings API call (`src/utils/embeddings_v1.0.py:25-29`) is taken to
  succeed.
- ThreadRunner.HandleToolCall: `submit_tool_outputs`
  (`src/lambda/thread_runner.py:112-117`) is taken to succeed; a submission is
  only logged.
- ThreadRunner.Poll: `runs.retrieve` (`src/lambda/thread_runner.py:133,158`) is
  taken to succeed; every retrieval yields the next state of the trace.
- `Invoked` events record the `Calling function ...` announcement, which is
  made before the arguments are bound; a call whose arguments do not fit is
  announced and then raises without the tool function running.
- `time.sleep` and wall-clock time are not modelled: each retrieval consumes
  the next state of a finite trace. A trace that runs out ends as
  `StillPolling`.
- The token cost estimate in `utils/embeddings.py` is floating-point
  arithmetic that only feeds a log line.
- Numbers are integers. Floats (embeddings, JSON numbers) are carried as
  opaque values and never computed with.
- `Strings.Lower` lower-cases ASCII letters only; Python's `str.lower` also
  folds other scripts.
- Python's `str()` of a non-string value (an f-string field, the `where`
  clause) is a parameter.
- A JSON object with a repeated key is kept as all its entries: lookups take
  the last one, as `json.loads` does, but `values()` and iteration see every
  entry where Python sees one per key.
- Iterating over a dict payload that has a falsy `data` entry yields the
  values in entry order, one per entry.
- `EmbeddingsV1.Backfill` is a function over a value. The script mutates the
  dicts in place, so a dict that raises part-way keeps its `video_id`, but
  the script ends at that exception and nothing reads the dict afterwards.
- `EmbeddingsV1.LoadFiles` takes each file's content as a list of dicts,
  which is what `csv.DictReader` yields. A `.json` file whose top level is
  not a list of objects is not modelled.
- The key order of padded rows comes from Python set iteration and is not
  modelled; padded rows are maps.
- The handler (`src/lambda/thread_runner.py:161-164`), the module-level
  setup, `upload_data`/`create_table`, and the demo queries at the end of
  each loader script do no record logic and are not modelled. In the entry
  point of `src/utils/load_vector_database.py:102-114`, the `[:10]` slice and
  the composition `prep_records_for_insert(generate_embeddings(records))` are
  modelled (`LoadVectorDatabase.MainRowsPrepared`); reading
  `data/records.json`, opening the database, uploading and logging are not.
- `src/app.py` (CDK infrastructure) is not part of this model. Neither are
  the FastAPI routes (`main.py`, `src/lambda/main.py`), the pydantic models,
  the settings, nor the assistant-creation scripts.
