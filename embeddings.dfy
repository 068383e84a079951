/** The first loader, utils/embeddings.py: read eight JSON files, pick each
    item's text by a fallback chain of keys, derive the item's type from its
    file name, and keep a record per item that has text. */
module Embeddings {
  import opened Json
  import opened Strings
  import opened Dicts
  import opened Tokens

  // ---------------------------------------------------------------------
  // get_text_to_embed

  /** The keys tried, in order, for an item's text. */
  const FallbackKeys: seq<string> :=
    ["description", "name", "summary", "Project Development Objective", "exerpt"]

  /** The value of the first key whose value is truthy, or None when there is
      none. */
  function FirstTruthy(d: Row, keys: seq<string>): (text: Value)
    ensures Truthy(text) ==>
      exists i :: 0 <= i < |keys| && text == Get(d, keys[i])
        && forall j :: 0 <= j < i ==> !Truthy(Get(d, keys[j]))
    ensures !Truthy(text) ==>
      text == Null && forall i :: 0 <= i < |keys| ==> !Truthy(Get(d, keys[i]))
    decreases |keys|
  {
    if keys == [] then Null
    else if Truthy(Get(d, keys[0])) then Get(d, keys[0])
    else
      var rest := FirstTruthy(d, keys[1..]);
      assert forall i :: 1 <= i < |keys| ==> keys[i] == keys[1..][i - 1];
      rest
  }

  /** What `get_text_to_embed(data)` returns, or the exception it raises:
      `data.get` needs a dict. */
  function TextToEmbed(data: Value): Result<Value> {
    if data.Obj? then Ok(FirstTruthy(data.entries, FallbackKeys)) else Err(NotAMapping)
  }

  /** `get_text_to_embed(data)`, reassigning `text` key by key. */
  method GetTextToEmbed(data: Value) returns (text: Result<Value>)
    ensures text == TextToEmbed(data)
  {
    if !data.Obj? {
      return Err(NotAMapping);
    }
    var d := data.entries;
    var t := Get(d, "description");
    if !Truthy(t) {
      t := Get(d, "name");
    }
    if !Truthy(t) {
      t := Get(d, "summary");
    }
    if !Truthy(t) {
      t := Get(d, "Project Development Objective");
    }
    if !Truthy(t) {
      t := Get(d, "exerpt");
    }
    if !Truthy(t) {
      return Ok(Null);
    }
    text := Ok(t);
  }

  /** The text is `description` when that is truthy, else `name`, else
      `summary`, else `Project Development Objective`, else `exerpt`; with none
      of them truthy it is None. */
  lemma {:induction false} FallbackChain(d: Row)
    ensures var text := FirstTruthy(d, FallbackKeys);
      && (Truthy(Get(d, "description")) ==> text == Get(d, "description"))
      && (!Truthy(Get(d, "description")) && Truthy(Get(d, "name")) ==> text == Get(d, "name"))
      && (!Truthy(Get(d, "description")) && !Truthy(Get(d, "name")) && Truthy(Get(d, "summary")) ==>
            text == Get(d, "summary"))
      && (!Truthy(Get(d, "description")) && !Truthy(Get(d, "name")) && !Truthy(Get(d, "summary"))
          && Truthy(Get(d, "Project Development Objective")) ==>
            text == Get(d, "Project Development Objective"))
      && (!Truthy(Get(d, "description")) && !Truthy(Get(d, "name")) && !Truthy(Get(d, "summary"))
          && !Truthy(Get(d, "Project Development Objective")) ==>
            text == (if Truthy(Get(d, "exerpt")) then Get(d, "exerpt") else Null))
  {
    var text := FirstTruthy(d, FallbackKeys);
    if Truthy(text) {
      var i :| 0 <= i < |FallbackKeys| && text == Get(d, FallbackKeys[i])
        && forall j :: 0 <= j < i ==> !Truthy(Get(d, FallbackKeys[j]));
      assert i >= 1 ==> !Truthy(Get(d, FallbackKeys[0]));
      assert i >= 2 ==> !Truthy(Get(d, FallbackKeys[1]));
      assert i >= 3 ==> !Truthy(Get(d, FallbackKeys[2]));
      assert i >= 4 ==> !Truthy(Get(d, FallbackKeys[3]));
    } else {
      assert !Truthy(Get(d, FallbackKeys[0])) && !Truthy(Get(d, FallbackKeys[1]))
        && !Truthy(Get(d, FallbackKeys[2])) && !Truthy(Get(d, FallbackKeys[3]))
        && !Truthy(Get(d, FallbackKeys[4]));
    }
  }

  // ---------------------------------------------------------------------
  // The record type

  /** `f.split('_')[-1].replace('s.json', '')`. */
  function TypeFromFileName(f: string): string {
    var parts := Split(f, '_');
    ReplaceAll(parts[|parts| - 1], "s.json", "")
  }

  /** A name `<prefix>_<t>s.json` whose last part `t` holds no `_` and no `.`
      has type `t`. */
  lemma TypeIsLastPart(prefix: string, t: string)
    requires '_' !in t && '.' !in t
    ensures TypeFromFileName(prefix + "_" + t + "s.json") == t
  {
    var last := t + "s.json";
    assert '_' !in last;
    assert prefix + "_" + t + "s.json" == prefix + ['_'] + last;
    SplitLastPiece(prefix, '_', last);
    forall i | 0 <= i < |t| ensures !MatchAt(last, "s.json", i) {
      if i + 6 <= |last| {
        assert last[i..i + 6][1] == last[i + 1];
        if i + 1 < |t| {
          assert last[i + 1] == t[i + 1];
        } else {
          assert last[i + 1] == 's';
        }
      }
    }
    ReplaceAllSkips(t, "s.json", "s.json", "");
    ReplaceAllLeading("s.json", "", "");
    assert t + "" == t;
  }

  /** `wb_ag_projects_datasets.json` holds items of type `dataset`,
      `wb_youtube_videos.json` items of type `video` and `wb_ag_apps.json`
      items of type `app` (each name written in the pieces the rule splits). */
  lemma TypeExamples()
    ensures TypeFromFileName("wb_ag_projects" + "_" + "dataset" + "s.json") == "dataset"
    ensures TypeFromFileName("wb_youtube" + "_" + "video" + "s.json") == "video"
    ensures TypeFromFileName("wb_ag" + "_" + "app" + "s.json") == "app"
  {
    TypeIsLastPart("wb_ag_projects", "dataset");
    TypeIsLastPart("wb_youtube", "video");
    TypeIsLastPart("wb_ag", "app");
  }

  // ---------------------------------------------------------------------
  // prep_data

  /** The eight files `prep_data` reads, in order. */
  const DataFiles: seq<string> := [
    "wb_ag_apps.json",
    "wb_ag_projects.json",
    "wb_ag_datasets.json",
    "wb_ag_microdatasets.json",
    "wb_ag_projects_datasets.json",
    "wb_youtube_videos.json",
    "wb_datasets.json",
    "wb_projects.json"
  ]

  /** A prepared record: `{'text_to_embed': ..., 'tokens': ..., 'metadata': ...}`. */
  datatype EmbeddingRecord = EmbeddingRecord(textToEmbed: string, tokens: seq<int>, metadata: Row)

  /** A dict payload stands for its `data` entry when that is truthy, and for
      its values otherwise; any other payload stands for itself. */
  function Payload(loaded: Value): Value {
    if loaded.Obj? then
      if Truthy(Get(loaded.entries, "data")) then Get(loaded.entries, "data")
      else List(Values(loaded.entries))
    else loaded
  }

  /** What `for d in data` walks over: a list's items, a string's characters,
      a dict's keys; None, a bool or a number cannot be iterated. */
  function Iterate(v: Value): Result<seq<Value>> {
    match v
    case List(items) => Ok(items)
    case Str(s) => Ok(seq(|s|, i requires 0 <= i < |s| => Str([s[i]])))
    case Obj(entries) => Ok(seq(|entries|, i requires 0 <= i < |entries| => Str(entries[i].0)))
    case _ => Err(NotIterable)
  }

  /** The record an item contributes: none when its text is falsy, and an
      exception when it is not a dict or its text is not a string
      (`text.replace` in `get_tokens`). */
  function ItemRecord(d: Value, ty: string, encode: string -> seq<int>): Result<Option<EmbeddingRecord>> {
    match TextToEmbed(d)
    case Err(e) => Err(e)
    case Ok(text) =>
      if !Truthy(text) then Ok(None)
      else if !text.Str? then Err(NotAString)
      else Ok(Some(EmbeddingRecord(text.s, GetTokens(text.s, encode), Set(d.entries, "type", Str(ty)))))
  }

  /** The item has text to embed. */
  predicate HasText(d: Value) {
    d.Obj? && Truthy(FirstTruthy(d.entries, FallbackKeys))
  }

  /** The comprehension over one file's items: it raises at the first item
      that is not a dict or whose text is not a string. */
  function ItemRecords(items: seq<Value>, ty: string, encode: string -> seq<int>): (res: Result<seq<EmbeddingRecord>>)
    ensures res.Ok? <==> forall j :: 0 <= j < |items| ==>
      items[j].Obj? && (HasText(items[j]) ==> FirstTruthy(items[j].entries, FallbackKeys).Str?)
    ensures res.Ok? ==> |res.value| <= |items|
    decreases |items|
  {
    if items == [] then Ok([])
    else
      assert forall j :: 1 <= j < |items| ==> items[j] == items[1..][j - 1];
      match ItemRecord(items[0], ty, encode)
      case Err(e) => Err(e)
      case Ok(first) =>
        match ItemRecords(items[1..], ty, encode)
        case Err(e) => Err(e)
        case Ok(rest) => Ok((if first.Some? then [first.value] else []) + rest)
  }

  /** `r` is the record `prep_data` builds from item `d`. */
  predicate BuiltFrom(r: EmbeddingRecord, d: Value, ty: string, encode: string -> seq<int>) {
    && d.Obj?
    && FirstTruthy(d.entries, FallbackKeys) == Str(r.textToEmbed)
    && r.textToEmbed != ""
    && r.tokens == GetTokens(r.textToEmbed, encode)
    && r.metadata == Set(d.entries, "type", Str(ty))
  }

  /** Result `k` is what item `idx[k]` yields under `pick`. */
  predicate PicksOf<T(==)>(idx: seq<int>, items: seq<Value>, rs: seq<T>, pick: Value -> Result<Option<T>>) {
    && |idx| == |rs|
    && forall k :: 0 <= k < |idx| ==> 0 <= idx[k] < |items| && pick(items[idx[k]]) == Ok(Some(rs[k]))
  }

  /** Record `k` is what item `idx[k]` yields. */
  predicate PicksRecords(idx: seq<int>, items: seq<Value>, rs: seq<EmbeddingRecord>, ty: string,
                         encode: string -> seq<int>) {
    PicksOf(idx, items, rs, v => ItemRecord(v, ty, encode))
  }

  predicate Increasing(idx: seq<int>) {
    forall k :: 0 < k < |idx| ==> idx[k - 1] < idx[k]
  }

  /** Every item with text is picked. */
  predicate CoversText(idx: seq<int>, items: seq<Value>) {
    forall j :: 0 <= j < |items| && HasText(items[j]) ==> j in idx
  }

  /** `idx` picks, in increasing order, the items the records were built from,
      and every item with text is picked. */
  predicate SelectsItems(idx: seq<int>, items: seq<Value>, rs: seq<EmbeddingRecord>, ty: string,
                         encode: string -> seq<int>) {
    PicksRecords(idx, items, rs, ty, encode) && Increasing(idx) && CoversText(idx, items)
  }

  /** Every index moved one item further. */
  function Shifted(idx: seq<int>): (out: seq<int>)
    ensures |out| == |idx| && forall k :: 0 <= k < |idx| ==> out[k] == idx[k] + 1
  {
    seq(|idx|, k requires 0 <= k < |idx| => idx[k] + 1)
  }

  /** An item that yields no record has no text, and one that yields a
      record is what that record was built from. */
  lemma ItemRecordBuilt(d: Value, ty: string, encode: string -> seq<int>)
    requires ItemRecord(d, ty, encode).Ok?
    ensures ItemRecord(d, ty, encode).value.None? ==> !HasText(d)
    ensures ItemRecord(d, ty, encode).value.Some? ==> BuiltFrom(ItemRecord(d, ty, encode).value.value, d, ty, encode)
  {
  }

  /** Indices into the tail, moved past a new first item, still pick the
      same results. */
  lemma PicksShifted<T>(idx: seq<int>, items: seq<Value>, rs: seq<T>, pick: Value -> Result<Option<T>>)
    requires items != [] && PicksOf(idx, items[1..], rs, pick)
    ensures PicksOf(Shifted(idx), items, rs, pick)
  {
    var sh := Shifted(idx);
    forall k | 0 <= k < |sh| ensures 0 <= sh[k] < |items| && pick(items[sh[k]]) == Ok(Some(rs[k])) {
      assert items[sh[k]] == items[1..][idx[k]];
    }
  }

  /** Indices into the tail, moved past a new first item, still pick every
      later item with text. */
  lemma ShiftedCovers(idx: seq<int>, items: seq<Value>)
    requires items != [] && CoversText(idx, items[1..])
    ensures forall j :: 1 <= j < |items| && HasText(items[j]) ==> j in Shifted(idx)
  {
    var sh := Shifted(idx);
    forall j | 1 <= j < |items| && HasText(items[j]) ensures j in sh {
      assert items[1..][j - 1] == items[j];
      var k :| 0 <= k < |idx| && idx[k] == j - 1;
      assert sh[k] == j;
    }
  }

  /** Non-negative increasing indices stay increasing when moved one further
      and put after a new first index 0. */
  lemma IncreasingAfterZero(idx: seq<int>)
    requires Increasing(idx) && forall k :: 0 <= k < |idx| ==> 0 <= idx[k]
    ensures Increasing(Shifted(idx)) && Increasing([0] + Shifted(idx))
  {
    var sh := Shifted(idx);
    var all := [0] + sh;
    forall k | 0 < k < |all| ensures all[k - 1] < all[k] {
      assert all[k] == idx[k - 1] + 1;
      if k > 1 {
        assert all[k - 1] == idx[k - 2] + 1;
      }
    }
  }

  /** A new first item that yields `r` puts `r` ahead of the tail's results. */
  lemma PicksFirst<T>(idx: seq<int>, items: seq<Value>, rs: seq<T>, r: T, pick: Value -> Result<Option<T>>)
    requires items != [] && PicksOf(idx, items[1..], rs, pick)
    requires pick(items[0]) == Ok(Some(r))
    ensures PicksOf([0] + Shifted(idx), items, [r] + rs, pick)
  {
    var sh := Shifted(idx);
    var all := [0] + sh;
    PicksShifted(idx, items, rs, pick);
    assert forall k :: 0 < k < |all| ==> all[k] == sh[k - 1] && ([r] + rs)[k] == rs[k - 1];
  }

  /** Index 0 covers a new first item, and the moved indices the rest. */
  lemma CoversFirst(idx: seq<int>, items: seq<Value>)
    requires items != [] && CoversText(idx, items[1..])
    ensures CoversText([0] + Shifted(idx), items)
  {
    var sh := Shifted(idx);
    ShiftedCovers(idx, items);
    forall j | 0 <= j < |items| && HasText(items[j]) ensures j in [0] + sh {
      if j > 0 {
        assert j in sh;
      }
    }
  }

  lemma SelectsFirst(idx: seq<int>, items: seq<Value>, rs: seq<EmbeddingRecord>, r: EmbeddingRecord,
                     ty: string, encode: string -> seq<int>)
    requires items != [] && SelectsItems(idx, items[1..], rs, ty, encode)
    requires ItemRecord(items[0], ty, encode) == Ok(Some(r))
    ensures SelectsItems([0] + Shifted(idx), items, [r] + rs, ty, encode)
  {
    PicksFirst(idx, items, rs, r, v => ItemRecord(v, ty, encode));
    IncreasingAfterZero(idx);
    CoversFirst(idx, items);
  }

  lemma SelectsSkip(idx: seq<int>, items: seq<Value>, rs: seq<EmbeddingRecord>, ty: string, encode: string -> seq<int>)
    requires items != [] && SelectsItems(idx, items[1..], rs, ty, encode) && !HasText(items[0])
    ensures SelectsItems(Shifted(idx), items, rs, ty, encode)
  {
    PicksShifted(idx, items, rs, v => ItemRecord(v, ty, encode));
    IncreasingAfterZero(idx);
    ShiftedCovers(idx, items);
  }

  /** The records of a file are its items with text, in file order, one record
      each, built from that item; items without text are dropped. */
  lemma {:induction false} ItemRecordsFilter(items: seq<Value>, ty: string, encode: string -> seq<int>)
    requires ItemRecords(items, ty, encode).Ok?
    ensures exists idx :: SelectsItems(idx, items, ItemRecords(items, ty, encode).value, ty, encode)
    decreases |items|
  {
    var rs := ItemRecords(items, ty, encode).value;
    if items == [] {
      assert SelectsItems([], items, rs, ty, encode);
    } else {
      var tail := items[1..];
      ItemRecordsFilter(tail, ty, encode);
      var rest := ItemRecords(tail, ty, encode).value;
      var idx :| SelectsItems(idx, tail, rest, ty, encode);
      ItemRecordBuilt(items[0], ty, encode);
      var first := ItemRecord(items[0], ty, encode).value;
      if first.Some? {
        assert rs == [first.value] + rest;
        assert ItemRecord(items[0], ty, encode) == Ok(Some(first.value));
        SelectsFirst(idx, items, rest, first.value, ty, encode);
      } else {
        assert rs == rest;
        SelectsSkip(idx, items, rest, ty, encode);
      }
    }
  }

  /** A record's metadata is its item with `type` set: the item's keys plus
      `type`, `type` holding the file's type whatever the item had there, and
      every other value as it was. */
  lemma RecordMetadata(r: EmbeddingRecord, d: Value, ty: string, encode: string -> seq<int>)
    requires BuiltFrom(r, d, ty, encode)
    ensures Keys(r.metadata) == Keys(d.entries) + {"type"}
    ensures Get(r.metadata, "type") == Str(ty)
    ensures forall k :: k != "type" ==> Get(r.metadata, k) == Get(d.entries, k)
  {
    SetGet(d.entries, "type", Str(ty));
  }

  /** The records of one file: its payload walked item by item, all typed
      after the file's name. */
  function FileRecords(f: string, loaded: Value, encode: string -> seq<int>): Result<seq<EmbeddingRecord>> {
    match Iterate(Payload(loaded))
    case Err(e) => Err(e)
    case Ok(items) => ItemRecords(items, TypeFromFileName(f), encode)
  }

  /** A list payload and a dict payload whose `data` is that same non-empty
      list give the same records; a dict payload without truthy `data` gives
      the records of its values. */
  lemma PayloadShapes(f: string, items: seq<Value>, entries: Row, encode: string -> seq<int>)
    ensures items != [] && Get(entries, "data") == List(items) ==>
      FileRecords(f, Obj(entries), encode) == FileRecords(f, List(items), encode)
    ensures !Truthy(Get(entries, "data")) ==>
      FileRecords(f, Obj(entries), encode) == ItemRecords(Values(entries), TypeFromFileName(f), encode)
  {
  }

  /** The records of the files in `files`, read by `load`, in file order. */
  function PrepFiles(files: seq<string>, load: string -> Value, encode: string -> seq<int>): Result<seq<EmbeddingRecord>>
    decreases |files|
  {
    if files == [] then Ok([])
    else
      match PrepFiles(files[..|files| - 1], load, encode)
      case Err(e) => Err(e)
      case Ok(rs) =>
        var f := files[|files| - 1];
        match FileRecords(f, load(f), encode)
        case Err(e) => Err(e)
        case Ok(more) => Ok(rs + more)
  }

  /** Once a file raises, the files after it are not read. */
  lemma {:induction false} PrepFilesStopsAtError(files: seq<string>, j: int, load: string -> Value,
                                                 encode: string -> seq<int>)
    requires 0 <= j <= |files| && PrepFiles(files[..j], load, encode).Err?
    ensures PrepFiles(files, load, encode) == PrepFiles(files[..j], load, encode)
    decreases |files| - j
  {
    if j < |files| {
      assert files[..j + 1][..j] == files[..j];
      PrepFilesStopsAtError(files, j + 1, load, encode);
    } else {
      assert files[..j] == files;
    }
  }

  /** `prep_data()`: `load` stands for `json.load` of a file under `../data/`. */
  /** Reading one more file: its records follow the earlier ones, unless an
      earlier file or this one raised. */
  lemma PrepFilesSnoc(done: seq<string>, f: string, load: string -> Value, encode: string -> seq<int>)
    ensures PrepFiles(done + [f], load, encode) ==
      if PrepFiles(done, load, encode).Err? then PrepFiles(done, load, encode)
      else if FileRecords(f, load(f), encode).Err? then Err(FileRecords(f, load(f), encode).error)
      else Ok(PrepFiles(done, load, encode).value + FileRecords(f, load(f), encode).value)
  {
    assert (done + [f])[..|done|] == done;
  }

  /** The file loop of `prep_data`, over any list of file names. */
  method ReadFiles(files: seq<string>, load: string -> Value, encode: string -> seq<int>)
    returns (res: Result<seq<EmbeddingRecord>>)
    ensures res == PrepFiles(files, load, encode)
  {
    var records := [];
    var i := 0;
    while i < |files|
      invariant 0 <= i <= |files|
      invariant PrepFiles(files[..i], load, encode) == Ok(records)
    {
      var f := files[i];
      var more := FileRecords(f, load(f), encode);
      if more.Err? {
        assert PrepFiles(files, load, encode) == Err(more.error) by {
          PrefixSnoc(files, i);
          PrepFilesSnoc(files[..i], f, load, encode);
          PrepFilesStopsAtError(files, i + 1, load, encode);
        }
        return Err(more.error);
      }
      assert PrepFiles(files[..i + 1], load, encode) == Ok(records + more.value) by {
        PrefixSnoc(files, i);
        PrepFilesSnoc(files[..i], f, load, encode);
      }
      records := records + more.value;
      i := i + 1;
    }
    assert files[..i] == files;
    res := Ok(records);
  }

  /** `prep_data`: the file loop over the eight data files. */
  method PrepData(load: string -> Value, encode: string -> seq<int>) returns (res: Result<seq<EmbeddingRecord>>)
    ensures res == PrepFiles(DataFiles, load, encode)
  {
    res := ReadFiles(DataFiles, load, encode);
  }

  /** `d` is one of the items file `f` holds. */
  predicate FileItem(d: Value, f: string, load: string -> Value) {
    Iterate(Payload(load(f))).Ok? && d in Iterate(Payload(load(f))).value
  }

  /** `r` was built from an item of file `f`, typed after `f`. */
  ghost predicate FromFile(r: EmbeddingRecord, f: string, load: string -> Value, encode: string -> seq<int>) {
    exists d :: FileItem(d, f, load) && BuiltFrom(r, d, TypeFromFileName(f), encode)
  }

  /** Every record of one file was built from one of its items. */
  lemma FileRecordsFromFile(f: string, load: string -> Value, encode: string -> seq<int>)
    requires FileRecords(f, load(f), encode).Ok?
    ensures forall r :: r in FileRecords(f, load(f), encode).value ==> FromFile(r, f, load, encode)
  {
    var items := Iterate(Payload(load(f))).value;
    var ty := TypeFromFileName(f);
    ItemRecordsFilter(items, ty, encode);
    var more := ItemRecords(items, ty, encode).value;
    var idx :| SelectsItems(idx, items, more, ty, encode);
    forall r | r in more ensures FromFile(r, f, load, encode) {
      var k :| 0 <= k < |more| && more[k] == r;
      ItemRecordBuilt(items[idx[k]], ty, encode);
      assert FileItem(items[idx[k]], f, load);
    }
  }

  /** Every record `prep_data` returns was built from an item with text of one
      of the files read, carries that item's text and tokens, and is typed
      after its file. */
  lemma {:induction false} PrepFilesRecords(files: seq<string>, load: string -> Value, encode: string -> seq<int>)
    requires PrepFiles(files, load, encode).Ok?
    ensures forall r :: r in PrepFiles(files, load, encode).value ==>
      exists i :: 0 <= i < |files| && FromFile(r, files[i], load, encode)
    decreases |files|
  {
    if files != [] {
      var init := files[..|files| - 1];
      var f := files[|files| - 1];
      PrepFilesRecords(init, load, encode);
      FileRecordsFromFile(f, load, encode);
      var before := PrepFiles(init, load, encode).value;
      var more := FileRecords(f, load(f), encode).value;
      assert PrepFiles(files, load, encode).value == before + more;
      forall r | r in before + more
        ensures exists i :: 0 <= i < |files| && FromFile(r, files[i], load, encode)
      {
        if r in before {
          var i :| 0 <= i < |init| && FromFile(r, init[i], load, encode);
          assert files[i] == init[i];
        } else {
          assert FromFile(r, files[|files| - 1], load, encode);
        }
      }
    }
  }

  // ---------------------------------------------------------------------
  // generate_embeddings

  /** `{'embedding': get_embedding(d['tokens']), **d}`: the embedding goes
      first, the prepared record's three keys follow. */
  function Embedded(r: EmbeddingRecord, embed: seq<int> -> Value): Row {
    [("embedding", embed(EmbeddingInput(r.tokens))),
     ("text_to_embed", Str(r.textToEmbed)),
     ("tokens", List(seq(|r.tokens|, i requires 0 <= i < |r.tokens| => Num(r.tokens[i])))),
     ("metadata", Obj(r.metadata))]
  }

  lemma EmbeddedFields(r: EmbeddingRecord, embed: seq<int> -> Value)
    ensures Get(Embedded(r, embed), "embedding") == embed(EmbeddingInput(r.tokens))
    ensures Get(Embedded(r, embed), "metadata") == Obj(r.metadata)
    ensures Keys(Embedded(r, embed)) == {"embedding", "text_to_embed", "tokens", "metadata"}
  {
    var e := Embedded(r, embed);
    var e3, e2, e1 := e[..3], e[..2], e[..1];
    assert e3[..2] == e2 && e2[..1] == e1 && e1[..0] == [];
    assert Get(e1, "embedding") == e[0].1;
    assert e[..|e| - 1] == e3 && e3[..|e3| - 1] == e2 && e2[..|e2| - 1] == e1;
    assert Get(e2, "embedding") == Get(e1, "embedding");
    assert Get(e3, "embedding") == Get(e2, "embedding");
    assert Get(e, "embedding") == Get(e3, "embedding");
    KeysOfInit(e);
    KeysOfInit(e3);
    KeysOfInit(e2);
    KeysOfInit(e1);
  }

  /** The list written to `records.json`: one row per prepared record, in
      order, each holding the embedding of that record's (truncated) tokens. */
  function GenerateEmbeddings(rs: seq<EmbeddingRecord>, embed: seq<int> -> Value): (out: seq<Row>)
    ensures |out| == |rs|
  {
    seq(|rs|, i requires 0 <= i < |rs| => Embedded(rs[i], embed))
  }

  /** Row i holds the embedding of record i's tokens, cut to `MaxTokens`, and
      record i's metadata, under exactly the four keys. */
  lemma GeneratedRows(rs: seq<EmbeddingRecord>, embed: seq<int> -> Value)
    ensures forall i :: 0 <= i < |rs| ==>
      var out := GenerateEmbeddings(rs, embed)[i];
      && Get(out, "embedding") == embed(EmbeddingInput(rs[i].tokens))
      && Get(out, "metadata") == Obj(rs[i].metadata)
      && Keys(out) == {"embedding", "text_to_embed", "tokens", "metadata"}
  {
    forall i | 0 <= i < |rs|
      ensures var out := GenerateEmbeddings(rs, embed)[i];
        && Get(out, "embedding") == embed(EmbeddingInput(rs[i].tokens))
        && Get(out, "metadata") == Obj(rs[i].metadata)
        && Keys(out) == {"embedding", "text_to_embed", "tokens", "metadata"}
    {
      assert GenerateEmbeddings(rs, embed)[i] == Embedded(rs[i], embed);
      EmbeddedFields(rs[i], embed);
    }
  }
}
