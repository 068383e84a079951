/** The first embedding script (`embeddings_v1.0.py`): read five data files,
    tag every row with a type derived from its file name, backfill missing
    ids (from `dataset_id`, or from a YouTube link), join every row's values
    into `text_to_embed`, pad all rows to one key set and embed each row,
    rejecting token lists longer than the model accepts. */
module EmbeddingsV1 {
  import opened Json
  import opened Strings
  import opened Dicts
  import opened Tokens

  /** The files the script reads, in the order it reads them. */
  const DataFiles: seq<string> := [
    "wb_ag_datasets.csv",
    "wb_ag_projects.csv",
    "wb_youtube_videos.json",
    "wb_ag_ext_papers.csv",
    "wb_ag_usecases.csv"
  ]

  // ---------------------------------------------------------------------
  // Type from file name

  /** Remove every `wb_` and `ag_`, keep the text before the first `.`,
      drop its last character (the plural `s`). */
  function FileType(f: string): string {
    DropLast(Split(ReplaceAll(ReplaceAll(f, "wb_", ""), "ag_", ""), '.')[0])
  }

  /** Removing `wb_` then `ag_` from `wb_ag_<t>` or `wb_<t>` leaves `<t>`
      when `<t>` holds no `w` and no `g`. */
  lemma StripPrefixes(t: string)
    requires 'w' !in t && 'g' !in t
    ensures ReplaceAll(ReplaceAll("wb_" + ("ag_" + t), "wb_", ""), "ag_", "") == t
    ensures ReplaceAll(ReplaceAll("wb_" + t, "wb_", ""), "ag_", "") == t
  {
    RemoveLeading("wb_", "ag_" + t, 'w');
    RemoveLeading("wb_", t, 'w');
    RemoveLeading("ag_", t, 'g');
    ReplaceAllAbsent(t, "ag_", "", 'g');
  }

  /** The text before the first `.` of `<stem>s.<ext>`, without its last
      character, is `<stem>`. */
  lemma StemBeforeDot(stem: string, ext: string)
    requires '.' !in stem
    ensures DropLast(Split(stem + "s." + ext, '.')[0]) == stem
  {
    assert stem + "s." + ext == (stem + "s") + ['.'] + ext;
    SplitAtFirst(stem + "s", '.', ext);
    assert DropLast(stem + "s") == stem;
  }

  /** A name `wb_[ag_]<stem>s.<ext>` has type `<stem>`, provided the rest of
      the name holds no `w`, no `g` (so no `wb_` or `ag_`) and the stem no `.`. */
  lemma FileTypeOfStem(stem: string, ext: string)
    requires '.' !in stem
    requires 'w' !in stem + "s." + ext && 'g' !in stem + "s." + ext
    ensures FileType("wb_" + ("ag_" + (stem + "s." + ext))) == stem
    ensures FileType("wb_" + (stem + "s." + ext)) == stem
  {
    StripPrefixes(stem + "s." + ext);
    StemBeforeDot(stem, ext);
  }

  /** Two of the files the script reads, each written as its pieces:
      `wb_ag_ext_papers.csv` has type `ext_paper`, and `wb_youtube_videos.json`
      has type `youtube_video`, the type the id backfill looks for. */
  lemma FileTypeExamples()
    ensures FileType("wb_" + ("ag_" + ("ext_paper" + "s." + "csv"))) == "ext_paper"
    ensures FileType("wb_" + ("youtube_video" + "s." + "json")) == "youtube_video"
  {
    assert FileType("wb_" + ("ag_" + ("ext_paper" + "s." + "csv"))) == "ext_paper" by {
      FileTypeOfStem("ext_paper", "csv");
    }
    FileTypeOfStem("youtube_video", "json");
  }

  // ---------------------------------------------------------------------
  // Loading

  /** `{**row, 'type': <type of f>}`. */
  function TypedRow(f: string, row: Row): (r: Row)
    ensures Keys(r) == Keys(row) + {"type"}
    ensures Get(r, "type") == Str(FileType(f))
    ensures forall k :: k != "type" ==> Get(r, k) == Get(row, k)
  {
    SetGet(row, "type", Str(FileType(f)));
    Set(row, "type", Str(FileType(f)))
  }

  /** The rows the script has gathered after reading `files`; `load(f)` is
      the list of dicts the file holds. `rows[0]` raises on an empty file. */
  function LoadFiles(files: seq<string>, load: string -> seq<Row>): Result<seq<Row>>
    decreases |files|
  {
    if files == [] then Ok([])
    else
      match LoadFiles(files[..|files| - 1], load)
      case Err(e) => Err(e)
      case Ok(data) =>
        var f := files[|files| - 1];
        var rows := load(f);
        if rows == [] then Err(IndexError)
        else Ok(data + seq(|rows|, i requires 0 <= i < |rows| => TypedRow(f, rows[i])))
  }

  /** Once a file raises, the files after it are not read. */
  lemma {:induction false} LoadFilesStopsAtError(files: seq<string>, j: int, load: string -> seq<Row>)
    requires 0 <= j <= |files| && LoadFiles(files[..j], load).Err?
    ensures LoadFiles(files, load) == LoadFiles(files[..j], load)
    decreases |files| - j
  {
    if j < |files| {
      assert files[..j + 1][..j] == files[..j];
      LoadFilesStopsAtError(files, j + 1, load);
    } else {
      assert files[..j] == files;
    }
  }

  /** The loading loop, extending `data` file by file. */
  /** The file loop of the script, over any list of file names. */
  method ReadFiles(files: seq<string>, load: string -> seq<Row>) returns (res: Result<seq<Row>>)
    ensures res == LoadFiles(files, load)
  {
    var data := [];
    var i := 0;
    while i < |files|
      invariant 0 <= i <= |files|
      invariant LoadFiles(files[..i], load) == Ok(data)
    {
      var f := files[i];
      assert files[..i + 1][..i] == files[..i] && files[..i + 1][i] == f;
      var rows := load(f);
      if rows == [] {
        assert LoadFiles(files[..i + 1], load) == Err(IndexError);
        LoadFilesStopsAtError(files, i + 1, load);
        return Err(IndexError);
      }
      var typed := seq(|rows|, k requires 0 <= k < |rows| => TypedRow(f, rows[k]));
      assert LoadFiles(files[..i + 1], load) == Ok(data + typed);
      data := data + typed;
      i := i + 1;
    }
    assert files[..i] == files;
    res := Ok(data);
  }

  /** The script's file loop over its five data files. */
  method LoadData(load: string -> seq<Row>) returns (res: Result<seq<Row>>)
    ensures res == LoadFiles(DataFiles, load)
  {
    res := ReadFiles(DataFiles, load);
  }

  /** `r` is a row of file `f`, tagged with that file's type. */
  ghost predicate LoadedFrom(r: Row, f: string, load: string -> seq<Row>) {
    exists k :: 0 <= k < |load(f)| && r == TypedRow(f, load(f)[k])
  }

  /** Loading succeeds exactly when no file is empty. */
  lemma {:induction false} LoadSucceeds(files: seq<string>, load: string -> seq<Row>)
    ensures LoadFiles(files, load).Ok? <==> forall j :: 0 <= j < |files| ==> load(files[j]) != []
    decreases |files|
  {
    if files != [] {
      var init := files[..|files| - 1];
      LoadSucceeds(init, load);
      assert forall j :: 0 <= j < |init| ==> init[j] == files[j];
    }
  }

  /** Every gathered row is a row of one of the files, tagged with that
      file's type. */
  lemma {:induction false} LoadedRows(files: seq<string>, load: string -> seq<Row>)
    requires LoadFiles(files, load).Ok?
    ensures forall i :: 0 <= i < |LoadFiles(files, load).value| ==>
      exists j :: 0 <= j < |files| && LoadedFrom(LoadFiles(files, load).value[i], files[j], load)
    ensures forall i :: 0 <= i < |LoadFiles(files, load).value| ==> "type" in Keys(LoadFiles(files, load).value[i])
    decreases |files|
  {
    if files != [] {
      var init := files[..|files| - 1];
      var f := files[|files| - 1];
      LoadedRows(init, load);
      var data := LoadFiles(init, load).value;
      var rows := load(f);
      var all := LoadFiles(files, load).value;
      assert all == data + seq(|rows|, k requires 0 <= k < |rows| => TypedRow(f, rows[k]));
      forall i | 0 <= i < |all|
        ensures exists j :: 0 <= j < |files| && LoadedFrom(all[i], files[j], load)
        ensures "type" in Keys(all[i])
      {
        if i < |data| {
          var j :| 0 <= j < |init| && LoadedFrom(data[i], init[j], load);
          assert all[i] == data[i] && init[j] == files[j];
        } else {
          assert all[i] == TypedRow(f, rows[i - |data|]);
          assert LoadedFrom(all[i], files[|files| - 1], load);
        }
      }
    }
  }

  // ---------------------------------------------------------------------
  // Id backfill

  const YoutubePrefix: string := "https://www.youtube.com/watch?v="

  /** `(video_id, timestamp, id)` computed from a YouTube link: the link
      without the watch prefix, split at `&`; `[1]` raises when there is no
      second segment. */
  function YoutubeFields(link: string): Result<(string, string, string)> {
    var rest := ReplaceAll(link, YoutubePrefix, "");
    var parts := Split(rest, '&');
    if |parts| < 2 then Err(IndexError)
    else Ok((parts[0], DropLast(ReplaceAll(parts[1], "t=", "")), DropLast(ReplaceAll(rest, "&t=", "_"))))
  }

  /** One step of the backfill loop on one dict. `d['dataset_id']`, `d['type']`
      and `d['link']` raise when the key is missing; `.replace` raises when the
      link is not a str. */
  function Backfill(d: Row): Result<Row> {
    if !Truthy(Get(d, "id")) && Truthy(Get(d, "dataset_id")) then
      Ok(Set(d, "id", Get(d, "dataset_id")))
    else if !Truthy(Get(d, "id")) then
      if "type" !in Keys(d) then Err(KeyError("type"))
      else if Get(d, "type") != Str("youtube_video") then Ok(d)
      else if "link" !in Keys(d) then Err(KeyError("link"))
      else if !Get(d, "link").Str? then Err(NotAString)
      else
        match YoutubeFields(Get(d, "link").s)
        case Err(e) => Err(e)
        case Ok((videoId, timestamp, id)) =>
          Ok(Set(Set(Set(d, "video_id", Str(videoId)), "timestamp", Str(timestamp)), "id", Str(id)))
    else Ok(d)
  }

  /** The backfill touches only `id`, `video_id` and `timestamp`, never removes
      a key, and leaves a dict with a truthy `id` as it is. */
  lemma BackfillKeepsOthers(d: Row)
    ensures Truthy(Get(d, "id")) ==> Backfill(d) == Ok(d)
    ensures Backfill(d).Ok? ==> Keys(d) <= Keys(Backfill(d).value)
    ensures Backfill(d).Ok? ==>
      forall k :: k != "id" && k != "video_id" && k != "timestamp" ==> Get(Backfill(d).value, k) == Get(d, k)
  {
    SetGet(d, "id", Get(d, "dataset_id"));
    if !Truthy(Get(d, "id")) && !Truthy(Get(d, "dataset_id")) && Backfill(d).Ok? && Backfill(d) != Ok(d) {
      var link := Get(d, "link").s;
      var (videoId, timestamp, id) := YoutubeFields(link).value;
      var d1 := Set(d, "video_id", Str(videoId));
      var d2 := Set(d1, "timestamp", Str(timestamp));
      SetGet(d, "video_id", Str(videoId));
      SetGet(d1, "timestamp", Str(timestamp));
      SetGet(d2, "id", Str(id));
    }
  }

  /** A falsy `id` next to a truthy `dataset_id` becomes that `dataset_id`. */
  lemma BackfillFromDatasetId(d: Row)
    requires !Truthy(Get(d, "id")) && Truthy(Get(d, "dataset_id"))
    ensures Backfill(d).Ok?
    ensures Get(Backfill(d).value, "id") == Get(d, "dataset_id")
    ensures Keys(Backfill(d).value) == Keys(d) + {"id"}
  {
    SetGet(d, "id", Get(d, "dataset_id"));
  }

  /** No character of `pat`'s head occurs at an index of `x`, so no match of
      `pat` starts inside `x`. */
  lemma NoMatchInHead(x: string, y: string, pat: string)
    requires pat != "" && pat[0] !in x
    ensures forall i :: 0 <= i < |x| ==> !MatchAt(x + y, pat, i)
  {
    forall i | 0 <= i < |x| ensures !MatchAt(x + y, pat, i) {
      if i + |pat| <= |x + y| {
        assert (x + y)[i..i + |pat|][0] == x[i];
      }
    }
  }

  /** `<vid>&<second>` splits at `&` into `<vid>` and `<second>`. */
  lemma SplitVideoId(vid: string, second: string)
    requires '&' !in vid && '&' !in second
    ensures Split(vid + ("&" + second), '&') == [vid, second]
  {
    assert vid + ("&" + second) == vid + ['&'] + second;
    SplitAtFirst(vid, '&', second);
    SplitWithout(second, '&');
  }

  /** In `<vid>&t=<stamp>` the one `&t=` becomes `_`. */
  lemma JoinVideoId(vid: string, stamp: string)
    requires '&' !in vid && '&' !in stamp
    ensures ReplaceAll(vid + ("&t=" + stamp), "&t=", "_") == vid + ("_" + stamp)
  {
    NoMatchInHead(vid, "&t=" + stamp, "&t=");
    ReplaceAllSkips(vid, "&t=" + stamp, "&t=", "_");
    ReplaceAllLeading("&t=", stamp, "_");
    ReplaceAllAbsent(stamp, "&t=", "_", '&');
  }

  /** For `...watch?v=<vid>&t=<ts><c>` the fields are `<vid>`, `<ts>` and
      `<vid>_<ts>`, as long as the parts hold none of the separators. */
  lemma YoutubeLink(vid: string, ts: string, c: char)
    requires '&' !in vid && ':' !in vid
    requires '&' !in ts + [c] && '=' !in ts + [c] && ':' !in ts + [c]
    ensures YoutubeFields(YoutubePrefix + (vid + ("&t=" + (ts + [c])))) == Ok((vid, ts, vid + ("_" + ts)))
  {
    var stamp := ts + [c];
    var rest := vid + ("&t=" + stamp);
    assert ReplaceAll(YoutubePrefix + rest, YoutubePrefix, "") == rest by {
      assert ':' !in rest;
      RemoveLeading(YoutubePrefix, rest, ':');
    }
    assert Split(rest, '&') == [vid, "t=" + stamp] by {
      SplitVideoId(vid, "t=" + stamp);
      assert rest == vid + ("&" + ("t=" + stamp));
    }
    assert DropLast(ReplaceAll("t=" + stamp, "t=", "")) == ts by {
      RemoveLeading("t=", stamp, '=');
      assert DropLast(stamp) == ts;
    }
    assert DropLast(ReplaceAll(rest, "&t=", "_")) == vid + ("_" + ts) by {
      JoinVideoId(vid, stamp);
      assert DropLast(vid + ("_" + stamp)) == vid + ("_" + ts);
    }
  }

  /** The worked example: `watch?v=abc&t=30s` gives `abc`, `30` and `abc_30`. */
  lemma YoutubeExample()
    ensures YoutubeFields("https://www.youtube.com/watch?v=abc&t=30s") == Ok(("abc", "30", "abc_30"))
  {
    YoutubeLink("abc", "30", 's');
    assert YoutubePrefix + ("abc" + ("&t=" + ("30" + ['s']))) == "https://www.youtube.com/watch?v=abc&t=30s";
    assert "abc" + ("_" + "30") == "abc_30";
  }

  /** A link without `&` has no second segment, so computing the timestamp
      raises. */
  lemma {:induction false} YoutubeLinkWithoutAmpersand(link: string)
    requires '&' !in link
    ensures YoutubeFields(link) == Err(IndexError)
  {
    var rest := ReplaceAll(link, YoutubePrefix, "");
    ReplaceAllChars(link, YoutubePrefix, "");
    assert '&' !in rest;
    SplitWithout(rest, '&');
  }

  /** A YouTube dict without `id` and `dataset_id` gets its `video_id`,
      `timestamp` and `id` from its link; the link `...watch?v=<vid>&t=<ts><c>`
      gives `<vid>`, `<ts>` and `<vid>_<ts>`, and a link without `&` raises. */
  lemma BackfillYoutube(d: Row, vid: string, ts: string, c: char)
    requires !Truthy(Get(d, "id")) && !Truthy(Get(d, "dataset_id"))
    requires "type" in Keys(d) && Get(d, "type") == Str("youtube_video")
    requires "link" in Keys(d) && Get(d, "link").Str?
    ensures '&' !in Get(d, "link").s ==> Backfill(d) == Err(IndexError)
    ensures Get(d, "link") == Str(YoutubePrefix + (vid + ("&t=" + (ts + [c])))) &&
            '&' !in vid && ':' !in vid && '&' !in ts + [c] && '=' !in ts + [c] && ':' !in ts + [c] ==>
      Backfill(d).Ok? &&
      Get(Backfill(d).value, "video_id") == Str(vid) &&
      Get(Backfill(d).value, "timestamp") == Str(ts) &&
      Get(Backfill(d).value, "id") == Str(vid + ("_" + ts))
  {
    var link := Get(d, "link").s;
    if '&' !in link {
      YoutubeLinkWithoutAmpersand(link);
    }
    if link == YoutubePrefix + (vid + ("&t=" + (ts + [c]))) &&
       '&' !in vid && ':' !in vid && '&' !in ts + [c] && '=' !in ts + [c] && ':' !in ts + [c] {
      YoutubeLink(vid, ts, c);
      var d1 := Set(d, "video_id", Str(vid));
      var d2 := Set(d1, "timestamp", Str(ts));
      SetGet(d, "video_id", Str(vid));
      SetGet(d1, "timestamp", Str(ts));
      SetGet(d2, "id", Str(vid + ("_" + ts)));
    }
  }

  // ---------------------------------------------------------------------
  // text_to_embed

  /** The strs of `vs`, or None when one of them is not a str. */
  function Strs(vs: seq<Value>): (r: Option<seq<string>>)
    ensures r.Some? <==> forall i :: 0 <= i < |vs| ==> vs[i].Str?
    ensures r.Some? ==> |r.value| == |vs| && forall i :: 0 <= i < |vs| ==> r.value[i] == vs[i].s
    decreases |vs|
  {
    if vs == [] then Some([])
    else if !vs[0].Str? then None
    else
      match Strs(vs[1..])
      case None => None
      case Some(rest) => Some([vs[0].s] + rest)
  }

  /** `d['text_to_embed'] = '. '.join(d.values())`; the join raises on a value
      that is not a str. */
  function WithTextToEmbed(d: Row): Result<Row> {
    match Strs(Values(d))
    case None => Err(NotAString)
    case Some(texts) => Ok(Set(d, "text_to_embed", Str(Join(". ", texts))))
  }

  /** The join succeeds exactly when every value is a str; it is then the join
      of all the values the dict held before the assignment, in order, and
      every other key keeps its value. */
  lemma TextToEmbedJoinsValues(d: Row)
    ensures WithTextToEmbed(d).Ok? <==> forall i :: 0 <= i < |d| ==> d[i].1.Str?
    ensures WithTextToEmbed(d).Ok? ==>
      var texts := seq(|d|, i requires 0 <= i < |d| && d[i].1.Str? => d[i].1.s);
      var r := WithTextToEmbed(d).value;
      Get(r, "text_to_embed") == Str(Join(". ", texts)) &&
      Keys(r) == Keys(d) + {"text_to_embed"} &&
      forall k :: k != "text_to_embed" ==> Get(r, k) == Get(d, k)
  {
    var vs := Values(d);
    assert forall i :: 0 <= i < |d| ==> vs[i] == d[i].1;
    if Strs(vs).Some? {
      var texts := seq(|d|, i requires 0 <= i < |d| && d[i].1.Str? => d[i].1.s);
      assert Strs(vs).value == texts;
      SetGet(d, "text_to_embed", Str(Join(". ", texts)));
    }
  }

  // ---------------------------------------------------------------------
  // Embeddings

  /** `get_embedding(tokens)`: more than 8191 tokens raise; `embed` stands for
      the embedding API. */
  function Embedding(tokens: seq<int>, embed: seq<int> -> Value): Result<Value> {
    if |tokens| > MaxTokens then Err(TooManyTokens(|tokens|)) else Ok(embed(tokens))
  }

  /** The guard raises before the truncation that follows it: the call succeeds
      exactly on short enough lists, and then sends the same tokens the
      truncating version would. */
  lemma TruncationUnreachable(tokens: seq<int>, embed: seq<int> -> Value)
    ensures Embedding(tokens, embed).Ok? <==> |tokens| <= MaxTokens
    ensures Embedding(tokens, embed).Ok? ==>
      Embedding(tokens, embed).value == embed(EmbeddingInput(tokens)) &&
      Embedding(tokens, embed).value == embed(tokens)
    ensures Embedding(tokens, embed).Err? ==> Embedding(tokens, embed).error == TooManyTokens(|tokens|)
  {
    EmbeddingInputStable(tokens);
  }

  /** `get_embedding(get_tokens(d['text_to_embed']))` for one padded record. */
  function RecordEmbedding(d: Record, encode: string -> seq<int>, embed: seq<int> -> Value): Result<Value> {
    if "text_to_embed" !in d then Err(KeyError("text_to_embed"))
    else if !d["text_to_embed"].Str? then Err(NotAString)
    else Embedding(GetTokens(d["text_to_embed"].s, encode), embed)
  }

  // ---------------------------------------------------------------------
  // The whole script

  function Records(rows: seq<Row>): (rs: seq<Record>)
    ensures |rs| == |rows|
    ensures forall i :: 0 <= i < |rows| ==> rs[i] == ToMap(rows[i])
  {
    seq(|rows|, i requires 0 <= i < |rows| => ToMap(rows[i]))
  }

  /** What the script computes: the padded rows and their embeddings, or the
      first exception it raises. */
  function Script(load: string -> seq<Row>, encode: string -> seq<int>, embed: seq<int> -> Value)
    : Result<(seq<Record>, seq<Value>)>
  {
    match LoadFiles(DataFiles, load)
    case Err(e) => Err(e)
    case Ok(data) =>
      match MapAll(data, Backfill)
      case Err(e) => Err(e)
      case Ok(backfilled) =>
        match MapAll(backfilled, WithTextToEmbed)
        case Err(e) => Err(e)
        case Ok(texted) =>
          var records := Records(texted);
          var padded := PadAll(records, UnionKeys(records));
          match MapAll(padded, d => RecordEmbedding(d, encode, embed))
          case Err(e) => Err(e)
          case Ok(embeddings) => Ok((padded, embeddings))
  }

  /** The script, loop by loop. */
  method Run(load: string -> seq<Row>, encode: string -> seq<int>, embed: seq<int> -> Value)
    returns (res: Result<(seq<Record>, seq<Value>)>)
    ensures res == Script(load, encode, embed)
  {
    var data := LoadData(load);
    if data.Err? {
      return Err(data.error);
    }
    var backfilled := MapEach(data.value, Backfill);
    if backfilled.Err? {
      return Err(backfilled.error);
    }
    var texted := MapEach(backfilled.value, WithTextToEmbed);
    if texted.Err? {
      return Err(texted.error);
    }
    var records := Records(texted.value);
    var keySet := CollectKeys(records);
    var padded := PadAll(records, keySet);
    var embeddings := MapEach(padded, d => RecordEmbedding(d, encode, embed));
    if embeddings.Err? {
      return Err(embeddings.error);
    }
    res := Ok((padded, embeddings.value));
  }

  /** When the script finishes, every record has the same keys, among them
      `type` and `text_to_embed`; there is one embedding per record, computed
      from that record's text, whose token list is within the limit. */
  lemma ScriptOutcome(load: string -> seq<Row>, encode: string -> seq<int>, embed: seq<int> -> Value)
    requires Script(load, encode, embed).Ok?
    ensures var (records, embeddings) := Script(load, encode, embed).value;
      |records| == |embeddings| &&
      forall i :: 0 <= i < |records| ==>
        records[i].Keys == records[0].Keys &&
        "type" in records[i] && "text_to_embed" in records[i] && records[i]["text_to_embed"].Str? &&
        |GetTokens(records[i]["text_to_embed"].s, encode)| <= MaxTokens &&
        embeddings[i] == embed(GetTokens(records[i]["text_to_embed"].s, encode))
  {
    var data := LoadFiles(DataFiles, load).value;
    LoadedRows(DataFiles, load);
    var backfilled := MapAll(data, Backfill).value;
    var texted := MapAll(backfilled, WithTextToEmbed).value;
    var records := Records(texted);
    var padded := PadAll(records, UnionKeys(records));
    PaddedToUnion(records);
    var embeddings := MapAll(padded, d => RecordEmbedding(d, encode, embed)).value;
    forall i | 0 <= i < |padded|
      ensures padded[i].Keys == padded[0].Keys
      ensures "type" in padded[i] && "text_to_embed" in padded[i] && padded[i]["text_to_embed"].Str?
      ensures |GetTokens(padded[i]["text_to_embed"].s, encode)| <= MaxTokens
      ensures embeddings[i] == embed(GetTokens(padded[i]["text_to_embed"].s, encode))
    {
      BackfillKeepsOthers(data[i]);
      TextToEmbedJoinsValues(backfilled[i]);
      assert "type" in Keys(texted[i]) && "text_to_embed" in Keys(texted[i]);
      assert "type" in records[i] && "text_to_embed" in records[i];
      assert RecordEmbedding(padded[i], encode, embed).Ok?;
      TruncationUnreachable(GetTokens(padded[i]["text_to_embed"].s, encode), embed);
    }
  }
}
