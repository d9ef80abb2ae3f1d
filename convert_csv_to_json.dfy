/**
 * The stand-alone CSV-to-fixture converter. Reading the directory and the CSV
 * files and writing the JSON files are left to the caller: a CSV file is given
 * as its name and its rows, and each conversion returns the fixture path and
 * the entries that would be written there.
 */
module ConvertCsvToJson {

  /** One CSV row: column name to cell text. */
  type Row = map<string, string>

  /** One fixture entry: `{"model": ..., "pk": ..., "fields": ...}`. */
  datatype Entry = Entry(model: string, pk: nat, fields: Row)

  /** A file of the CSV directory with the rows it holds. */
  datatype CsvFile = CsvFile(name: string, rows: seq<Row>)

  const MODEL_MAPPING: map<string, string> := map[
    "users.csv" := "auth.user",
    "genre.csv" := "reviews.genre",
    "titles.csv" := "reviews.title",
    "comments.csv" := "reviews.comment",
    "review.csv" := "reviews.review",
    "genre_title.csv" := "reviews.title.genre",
    "category.csv" := "reviews.category"
  ]

  const DEFAULT_CSV_PATH: string := "static/data/"
  const DEFAULT_JSON_PATH: string := "static/fixtures/"

  // ---------------------------------------------------------------------------
  // Path derivation
  // ---------------------------------------------------------------------------

  /** The index of the last '/' before `end`, or -1 when there is none. */
  function LastSlash(path: string, end: nat): (k: int)
    requires end <= |path|
    ensures -1 <= k < end
    decreases end
  {
    if end == 0 then -1
    else if path[end - 1] == '/' then end - 1
    else LastSlash(path, end - 1)
  }

  /** The index of the first '.' from `start` on, or |name| when there is none. */
  function FirstDot(name: string, start: nat): (k: nat)
    requires start <= |name|
    ensures start <= k <= |name|
    decreases |name| - start
  {
    if start == |name| || name[start] == '.' then start
    else FirstDot(name, start + 1)
  }

  /** `path.split('/')[-1]`: what follows the last '/', or all of `path` without one. */
  function LastSegment(path: string): string {
    path[LastSlash(path, |path|) + 1..]
  }

  /** `name.split('.')[0]`: what precedes the first '.', or all of `name` without one. */
  function BeforeFirstDot(name: string): string {
    name[..FirstDot(name, 0)]
  }

  /**
   * `os.path.join(a, b)` on POSIX: an absolute `b` replaces `a`; otherwise a
   * '/' is put between them unless `a` is empty or already ends with one.
   */
  function JoinPath(a: string, b: string): string {
    if b != [] && b[0] == '/' then b
    else if a == [] || a[|a| - 1] == '/' then a + b
    else a + "/" + b
  }

  /** The name of the fixture for a CSV path: its file name up to the first '.', with ".json". */
  function FixtureName(csvPath: string): string {
    BeforeFirstDot(LastSegment(csvPath)) + ".json"
  }

  /** `join(json_path, csv_path.split('/')[-1].split('.')[0] + '.json')` */
  function FixturePath(csvPath: string, jsonPath: string): string {
    JoinPath(jsonPath, FixtureName(csvPath))
  }

  /** LastSlash finds a '/', and the last one: none lies between it and `end`. */
  lemma {:induction false} LastSlashIsLast(path: string, end: nat)
    requires end <= |path|
    ensures LastSlash(path, end) >= 0 ==> path[LastSlash(path, end)] == '/'
    ensures forall i | LastSlash(path, end) < i < end :: path[i] != '/'
    decreases end
  {
    if end > 0 && path[end - 1] != '/' {
      LastSlashIsLast(path, end - 1);
    }
  }

  /** FirstDot finds a '.', and the first one: none lies between `start` and it. */
  lemma {:induction false} FirstDotIsFirst(name: string, start: nat)
    requires start <= |name|
    ensures FirstDot(name, start) < |name| ==> name[FirstDot(name, start)] == '.'
    ensures forall i | start <= i < FirstDot(name, start) :: name[i] != '.'
    decreases |name| - start
  {
    if start < |name| && name[start] != '.' {
      FirstDotIsFirst(name, start + 1);
    }
  }

  /** A stretch without '/' before `end` is skipped over. */
  lemma {:induction false} LastSlashSkips(path: string, lo: nat, end: nat)
    requires lo <= end <= |path|
    requires forall i | lo <= i < end :: path[i] != '/'
    ensures LastSlash(path, end) == LastSlash(path, lo)
    decreases end
  {
    if end > lo {
      LastSlashSkips(path, lo, end - 1);
    }
  }

  /** A stretch without '.' from `start` is skipped over up to the dot at `dot`. */
  lemma {:induction false} FirstDotSkips(name: string, start: nat, dot: nat)
    requires start <= dot < |name| && name[dot] == '.'
    requires forall i | start <= i < dot :: name[i] != '.'
    ensures FirstDot(name, start) == dot
    decreases dot - start
  {
    if start < dot {
      FirstDotSkips(name, start + 1, dot);
    }
  }

  /** The last segment holds no '/' and is preceded by one whenever it is not the whole path. */
  lemma LastSegmentShape(path: string)
    ensures |LastSegment(path)| <= |path|
    ensures LastSegment(path) == path[|path| - |LastSegment(path)|..]
    ensures '/' !in LastSegment(path)
    ensures |LastSegment(path)| < |path| ==> path[|path| - |LastSegment(path)| - 1] == '/'
  {
    LastSlashIsLast(path, |path|);
    var k := LastSlash(path, |path|);
    var r := LastSegment(path);
    forall j | 0 <= j < |r|
      ensures r[j] != '/'
    {
      assert r[j] == path[k + 1 + j];
    }
  }

  /** The stem holds no '.' and is followed by one whenever it is not the whole name. */
  lemma BeforeFirstDotShape(name: string)
    ensures |BeforeFirstDot(name)| <= |name|
    ensures BeforeFirstDot(name) == name[..|BeforeFirstDot(name)|]
    ensures '.' !in BeforeFirstDot(name)
    ensures |BeforeFirstDot(name)| < |name| ==> name[|BeforeFirstDot(name)|] == '.'
  {
    FirstDotIsFirst(name, 0);
  }

  /** The fixture is named after the CSV file's stem, which holds no '/' and no '.'. */
  lemma FixtureNameShape(csvPath: string)
    ensures exists stem :: FixtureName(csvPath) == stem + ".json" && '/' !in stem && '.' !in stem
  {
    var segment := LastSegment(csvPath);
    var stem := BeforeFirstDot(segment);
    LastSegmentShape(csvPath);
    BeforeFirstDotShape(segment);
    assert forall i | 0 <= i < |stem| :: stem[i] == segment[i];
    assert FixtureName(csvPath) == stem + ".json";
  }

  /** Splitting a joined path at its last '/' gives back the file name that was joined. */
  lemma LastSegmentOfJoin(dir: string, name: string)
    requires '/' !in name
    ensures LastSegment(JoinPath(dir, name)) == name
  {
    var head := if name != [] && name[0] == '/' then []
                else if dir == [] || dir[|dir| - 1] == '/' then dir
                else dir + "/";
    var p := JoinPath(dir, name);
    assert p == head + name;
    forall i | |head| <= i < |p|
      ensures p[i] != '/'
    {
      assert p[i] == name[i - |head|];
    }
    LastSlashSkips(p, |head|, |p|);
    assert LastSlash(p, |head|) == |head| - 1;
    assert p[|head|..] == name;
  }

  /** The fixture of `stem.ext` found in `csvDir` is `stem.json` in `jsonDir`. */
  lemma FixturePathOfCsvFile(csvDir: string, jsonDir: string, stem: string, ext: string)
    requires '/' !in stem && '.' !in stem && '/' !in ext
    ensures FixturePath(JoinPath(csvDir, stem + "." + ext), jsonDir) == JoinPath(jsonDir, stem + ".json")
  {
    var name := stem + "." + ext;
    assert forall i | 0 <= i < |name| :: name[i] == (if i < |stem| then stem[i] else if i == |stem| then '.' else ext[i - |stem| - 1]);
    LastSegmentOfJoin(csvDir, name);
    FirstDotSkips(name, 0, |stem|);
    assert name[..|stem|] == stem;
  }

  // ---------------------------------------------------------------------------
  // Conversion
  // ---------------------------------------------------------------------------

  /** The `fields` of a fixture, in entry order. */
  function FieldsOf(entries: seq<Entry>): (r: seq<Row>)
    ensures |r| == |entries|
    ensures forall i | 0 <= i < |entries| :: r[i] == entries[i].fields
  {
    seq(|entries|, i requires 0 <= i < |entries| => entries[i].fields)
  }

  /**
   * make_json: one entry per row, in row order, each with the model name,
   * the next primary key counting from 1, and the row as its fields.
   */
  method MakeJson(csvPath: string, jsonPath: string, modelName: string, rows: seq<Row>)
    returns (path: string, entries: seq<Entry>)
    ensures path == FixturePath(csvPath, jsonPath)
    ensures |entries| == |rows|
    ensures forall i | 0 <= i < |rows| :: entries[i] == Entry(modelName, i + 1, rows[i])
    ensures entries == FixtureEntries(modelName, rows)
    ensures FieldsOf(entries) == rows
  {
    entries := [];
    var pkCounter := 1;
    path := FixturePath(csvPath, jsonPath);
    for i := 0 to |rows|
      invariant pkCounter == i + 1
      invariant |entries| == i
      invariant forall k | 0 <= k < i :: entries[k] == Entry(modelName, k + 1, rows[k])
    {
      entries := entries + [Entry(modelName, pkCounter, rows[i])];
      pkCounter := pkCounter + 1;
    }
    assert FieldsOf(entries) == rows;
    assert entries == FixtureEntries(modelName, rows);
  }

  /** The primary keys of a fixture made by MakeJson are 1..n in order, so they are distinct. */
  lemma FixturePksDistinct(entries: seq<Entry>, modelName: string, rows: seq<Row>)
    requires |entries| == |rows|
    requires forall i | 0 <= i < |rows| :: entries[i] == Entry(modelName, i + 1, rows[i])
    ensures forall i, j | 0 <= i < j < |entries| :: entries[i].pk < entries[j].pk
  {
  }

  datatype Outcome =
    | Converted(file: string, path: string, entries: seq<Entry>)
    | Skipped(file: string)

  /** The fixture make_json builds for `rows`: entry i holds pk i + 1 and row i. */
  function FixtureEntries(modelName: string, rows: seq<Row>): (r: seq<Entry>)
    ensures |r| == |rows|
    ensures forall i | 0 <= i < |rows| :: r[i] == Entry(modelName, i + 1, rows[i])
  {
    seq(|rows|, i requires 0 <= i < |rows| => Entry(modelName, i + 1, rows[i]))
  }

  /** What csv_to_json does with one file of the directory, given its name-to-model table. */
  function Dispatch(mapping: map<string, string>, csvPath: string, jsonPath: string, file: CsvFile): (r: Outcome)
    ensures r.file == file.name
    ensures r.Converted? <==> file.name in mapping
    ensures r.Converted? ==> r.path == FixturePath(JoinPath(csvPath, file.name), jsonPath)
    ensures r.Converted? ==> r.entries == FixtureEntries(mapping[file.name], file.rows)
  {
    if file.name in mapping
    then Converted(file.name, FixturePath(JoinPath(csvPath, file.name), jsonPath),
                   FixtureEntries(mapping[file.name], file.rows))
    else Skipped(file.name)
  }

  /** What csv_to_json does with the files, in directory order. */
  function DispatchAll(mapping: map<string, string>, csvPath: string, jsonPath: string, files: seq<CsvFile>): (r: seq<Outcome>)
    ensures |r| == |files|
  {
    if files == [] then []
    else DispatchAll(mapping, csvPath, jsonPath, files[..|files| - 1]) + [Dispatch(mapping, csvPath, jsonPath, files[|files| - 1])]
  }

  /** File i's outcome depends on file i alone. */
  lemma {:induction false} DispatchAllPointwise(mapping: map<string, string>, csvPath: string, jsonPath: string, files: seq<CsvFile>)
    ensures forall i | 0 <= i < |files| :: DispatchAll(mapping, csvPath, jsonPath, files)[i] == Dispatch(mapping, csvPath, jsonPath, files[i])
  {
    if files != [] {
      var init := files[..|files| - 1];
      var all := DispatchAll(mapping, csvPath, jsonPath, files);
      var done := DispatchAll(mapping, csvPath, jsonPath, init);
      DispatchAllPointwise(mapping, csvPath, jsonPath, init);
      assert all == done + [Dispatch(mapping, csvPath, jsonPath, files[|files| - 1])];
      forall i | 0 <= i < |files|
        ensures all[i] == Dispatch(mapping, csvPath, jsonPath, files[i])
      {
        if i < |init| {
          assert all[i] == done[i] && files[i] == init[i];
        }
      }
    }
  }

  /**
   * csv_to_json: every file whose name is a key of MODEL_MAPPING is converted
   * with its model name and its path inside `csvPath`; every other file is
   * skipped. Files are handled in directory order.
   */
  method CsvToJson(csvPath: string, jsonPath: string, files: seq<CsvFile>) returns (outcomes: seq<Outcome>)
    ensures outcomes == DispatchAll(MODEL_MAPPING, csvPath, jsonPath, files)
    ensures forall i | 0 <= i < |files| :: outcomes[i] == Dispatch(MODEL_MAPPING, csvPath, jsonPath, files[i])
  {
    outcomes := [];
    for i := 0 to |files|
      invariant outcomes == DispatchAll(MODEL_MAPPING, csvPath, jsonPath, files[..i])
    {
      var file := files[i];
      assert files[..i + 1] == files[..i] + [file];
      if file.name in MODEL_MAPPING {
        var path, entries := MakeJson(JoinPath(csvPath, file.name), jsonPath, MODEL_MAPPING[file.name], file.rows);
        outcomes := outcomes + [Converted(file.name, path, entries)];
      } else {
        outcomes := outcomes + [Skipped(file.name)];
      }
    }
    assert files[..|files|] == files;
    DispatchAllPointwise(MODEL_MAPPING, csvPath, jsonPath, files);
  }

  /** The mapping's model names are all non-empty, so the truth test on the looked-up name is a key test. */
  lemma MappedNamesNonEmpty()
    ensures forall f | f in MODEL_MAPPING :: MODEL_MAPPING[f] != ""
    ensures MODEL_MAPPING["users.csv"] == "auth.user"
    ensures MODEL_MAPPING["genre_title.csv"] == "reviews.title.genre"
  {
  }
}
