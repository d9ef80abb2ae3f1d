/**
 * The CSV-to-fixture converter run as a management command. It converts like
 * the stand-alone converter, with its own name-to-model table, and reports
 * through the command's output streams. The streams are modelled as the list
 * of lines written, each with its stream, style and ending; the wording of the
 * messages is not modelled.
 */
module CsvToJsonFixture {
  import C = ConvertCsvToJson

  const MODEL_MAPPING: map<string, string> := map[
    "users.csv" := "reviews.user",
    "genre.csv" := "reviews.genre",
    "titles.csv" := "reviews.title",
    "comments.csv" := "reviews.comment",
    "review.csv" := "reviews.review",
    "genre_title.csv" := "reviews.title.genre",
    "category.csv" := "reviews.category"
  ]

  /** This table and the stand-alone converter's have the same files and differ only in the users model. */
  lemma MappingsDifferOnlyOnUsers()
    ensures MODEL_MAPPING.Keys == C.MODEL_MAPPING.Keys
    ensures forall f | f in MODEL_MAPPING && f != "users.csv" :: MODEL_MAPPING[f] == C.MODEL_MAPPING[f]
    ensures MODEL_MAPPING["users.csv"] == "reviews.user" != C.MODEL_MAPPING["users.csv"]
  {
  }

  // ---------------------------------------------------------------------------
  // Output
  // ---------------------------------------------------------------------------

  datatype Stream = Stdout | Stderr
  datatype Style = SuccessStyle | ErrorStyle | WarningStyle

  /** What a line reports. */
  datatype Message =
    | Done                                  // the default text "OK"
    | Creating(path: string, model: string) // a fixture is being written
    | FileCount(count: nat)
    | FileList(names: seq<string>)
    | NoModel(file: string)                 // no model for this file
    | AllConverted

  datatype Line = Line(stream: Stream, style: Style, message: Message, ending: string)

  /** wrap_print_to_stdout: the line written for a message and its flags. */
  function WrapPrint(message: Message, success: bool, failure: bool, ending: string): Line {
    if success then Line(Stdout, SuccessStyle, message, "\n")
    else if failure then Line(Stderr, ErrorStyle, message, "\n")
    else Line(Stdout, WarningStyle, message, ending)
  }

  /**
   * Success wins over failure and goes to stdout in the success style;
   * failure alone goes to stderr in the error style; anything else goes to
   * stdout in the warning style with the given ending. The first two end with
   * the stream's default newline.
   */
  lemma WrapPrintRouting(message: Message, success: bool, failure: bool, ending: string)
    ensures WrapPrint(message, success, failure, ending).message == message
    ensures WrapPrint(message, success, failure, ending).stream == Stderr <==> !success && failure
    ensures WrapPrint(message, success, failure, ending).style == SuccessStyle <==> success
    ensures WrapPrint(message, success, failure, ending).style == ErrorStyle <==> !success && failure
    ensures WrapPrint(message, success, failure, ending).style == WarningStyle <==> !success && !failure
    ensures WrapPrint(message, success, failure, ending).ending == if success || failure then "\n" else ending
  {
  }

  // ---------------------------------------------------------------------------
  // Conversion
  // ---------------------------------------------------------------------------

  /** make_json's first line: a warning-style "creating" line with no ending, so "OK" follows on the same line. */
  function CreatingLine(path: string, modelName: string): Line {
    WrapPrint(Creating(path, modelName), false, false, "")
  }

  /** make_json's last line: the default "OK" in the success style. */
  function DoneLine(): Line {
    WrapPrint(Done, true, false, "\n")
  }

  /** What make_json writes. */
  function MakeJsonLog(path: string, modelName: string): seq<Line> {
    [CreatingLine(path, modelName), DoneLine()]
  }

  /** make_json: the same fixture as the stand-alone converter, reported on the command's output. */
  method MakeJson(csvPath: string, jsonPath: string, modelName: string, rows: seq<C.Row>)
    returns (path: string, entries: seq<C.Entry>, log: seq<Line>)
    ensures path == C.FixturePath(csvPath, jsonPath)
    ensures |entries| == |rows|
    ensures forall i | 0 <= i < |rows| :: entries[i] == C.Entry(modelName, i + 1, rows[i])
    ensures entries == C.FixtureEntries(modelName, rows)
    ensures log == MakeJsonLog(path, modelName)
  {
    entries := [];
    var pkCounter := 1;
    path := C.FixturePath(csvPath, jsonPath);
    log := [CreatingLine(path, modelName)];
    for i := 0 to |rows|
      invariant pkCounter == i + 1
      invariant |entries| == i
      invariant forall k | 0 <= k < i :: entries[k] == C.Entry(modelName, k + 1, rows[k])
    {
      entries := entries + [C.Entry(modelName, pkCounter, rows[i])];
      pkCounter := pkCounter + 1;
    }
    log := log + [DoneLine()];
    assert entries == C.FixtureEntries(modelName, rows);
  }

  /** The command's options; a missing one takes its default directory. */
  type Options = map<string, string>

  function CsvDir(options: Options): (dir: string)
    ensures "csv_path" !in options ==> dir == C.DEFAULT_CSV_PATH
    ensures "csv_path" in options ==> dir == options["csv_path"]
  {
    if "csv_path" in options then options["csv_path"] else C.DEFAULT_CSV_PATH
  }

  function JsonDir(options: Options): (dir: string)
    ensures "json_path" !in options ==> dir == C.DEFAULT_JSON_PATH
    ensures "json_path" in options ==> dir == options["json_path"]
  {
    if "json_path" in options then options["json_path"] else C.DEFAULT_JSON_PATH
  }

  /**
   * The lines written for one handled file: make_json's two lines for a
   * converted file, one failure line for a skipped one.
   */
  function Report(mapping: map<string, string>, outcome: C.Outcome): seq<Line> {
    if outcome.Converted? && outcome.file in mapping
    then MakeJsonLog(outcome.path, mapping[outcome.file])
    else [WrapPrint(NoModel(outcome.file), false, true, "\n")]
  }

  /** The reports for the handled files, in order. */
  function Reports(mapping: map<string, string>, outcomes: seq<C.Outcome>): seq<Line> {
    if outcomes == [] then []
    else Reports(mapping, outcomes[..|outcomes| - 1]) + Report(mapping, outcomes[|outcomes| - 1])
  }

  function Names(files: seq<C.CsvFile>): (r: seq<string>)
    ensures |r| == |files|
    ensures forall i | 0 <= i < |files| :: r[i] == files[i].name
  {
    seq(|files|, i requires 0 <= i < |files| => files[i].name)
  }

  /** The two success lines csv_to_json writes first: how many files there are, and their names. */
  function Header(files: seq<C.CsvFile>): seq<Line> {
    [WrapPrint(FileCount(|files|), true, false, "\n"), WrapPrint(FileList(Names(files)), true, false, "\n")]
  }

  /** The success line csv_to_json writes last. */
  function Closing(): seq<Line> {
    [WrapPrint(AllConverted, true, false, "\n")]
  }

  /** Everything csv_to_json writes: the count and the list of files, one report per file, the closing line. */
  function RunLog(mapping: map<string, string>, files: seq<C.CsvFile>, outcomes: seq<C.Outcome>): seq<Line> {
    Header(files) + Reports(mapping, outcomes) + Closing()
  }

  /** One pass of csv_to_json's loop: convert the file if it has a model, report a failure otherwise. */
  method ConvertFile(mapping: map<string, string>, csvPath: string, jsonPath: string, file: C.CsvFile)
    returns (outcome: C.Outcome, lines: seq<Line>)
    ensures outcome == C.Dispatch(mapping, csvPath, jsonPath, file)
    ensures lines == Report(mapping, outcome)
  {
    if file.name in mapping {
      var path, entries;
      path, entries, lines := MakeJson(C.JoinPath(csvPath, file.name), jsonPath, mapping[file.name], file.rows);
      outcome := C.Converted(file.name, path, entries);
    } else {
      outcome := C.Skipped(file.name);
      lines := [WrapPrint(NoModel(file.name), false, true, "\n")];
    }
  }

  /**
   * csv_to_json: the directories come from the options or their defaults;
   * every file whose name is a key of this module's table is converted, and
   * every other file is reported as a failure.
   */
  method CsvToJson(options: Options, files: seq<C.CsvFile>) returns (outcomes: seq<C.Outcome>, log: seq<Line>)
    ensures outcomes == C.DispatchAll(MODEL_MAPPING, CsvDir(options), JsonDir(options), files)
    ensures log == RunLog(MODEL_MAPPING, files, outcomes)
  {
    outcomes, log := ConvertAll(MODEL_MAPPING, CsvDir(options), JsonDir(options), files);
  }

  /** csv_to_json's report and loop once the table and the directories are fixed. */
  method ConvertAll(mapping: map<string, string>, csvPath: string, jsonPath: string, files: seq<C.CsvFile>)
    returns (outcomes: seq<C.Outcome>, log: seq<Line>)
    ensures outcomes == C.DispatchAll(mapping, csvPath, jsonPath, files)
    ensures log == RunLog(mapping, files, outcomes)
  {
    log := Header(files);
    outcomes := [];
    assert files[..0] == [];
    for i := 0 to |files|
      invariant outcomes == C.DispatchAll(mapping, csvPath, jsonPath, files[..i])
      invariant log == Header(files) + Reports(mapping, outcomes)
    {
      var outcome, lines := ConvertFile(mapping, csvPath, jsonPath, files[i]);
      ConvertAllStep(mapping, csvPath, jsonPath, files, i, outcomes, outcome, Header(files), log, lines);
      outcomes := outcomes + [outcome];
      log := log + lines;
    }
    assert files[..|files|] == files;
    log := log + Closing();
  }

  /** One more handled file extends the outcomes by its own and the log by its report. */
  lemma ConvertAllStep(mapping: map<string, string>, csvPath: string, jsonPath: string, files: seq<C.CsvFile>, i: nat,
                       outcomes: seq<C.Outcome>, outcome: C.Outcome, header: seq<Line>, log: seq<Line>, lines: seq<Line>)
    requires i < |files|
    requires outcomes == C.DispatchAll(mapping, csvPath, jsonPath, files[..i])
    requires outcome == C.Dispatch(mapping, csvPath, jsonPath, files[i])
    requires log == header + Reports(mapping, outcomes)
    requires lines == Report(mapping, outcome)
    ensures outcomes + [outcome] == C.DispatchAll(mapping, csvPath, jsonPath, files[..i + 1])
    ensures log + lines == header + Reports(mapping, outcomes + [outcome])
  {
    assert files[..i + 1][..i] == files[..i];
    ReportsSnoc(mapping, outcomes, outcome);
  }

  lemma ReportsSnoc(mapping: map<string, string>, outcomes: seq<C.Outcome>, outcome: C.Outcome)
    ensures Reports(mapping, outcomes + [outcome]) == Reports(mapping, outcomes) + Report(mapping, outcome)
  {
    assert (outcomes + [outcome])[..|outcomes|] == outcomes;
  }

  // ---------------------------------------------------------------------------
  // Failure reports
  // ---------------------------------------------------------------------------

  /** The messages written to stderr, in order. */
  function Failures(log: seq<Line>): seq<Message> {
    if log == [] then []
    else Failures(log[..|log| - 1]) + (if log[|log| - 1].stream == Stderr then [log[|log| - 1].message] else [])
  }

  /** One NoModel report per file without a model, in directory order. */
  function Unmapped(mapping: map<string, string>, files: seq<C.CsvFile>): seq<Message> {
    if files == [] then []
    else Unmapped(mapping, files[..|files| - 1]) + (if files[|files| - 1].name !in mapping then [NoModel(files[|files| - 1].name)] else [])
  }

  lemma {:induction false} FailuresAppend(a: seq<Line>, b: seq<Line>)
    ensures Failures(a + b) == Failures(a) + Failures(b)
    decreases |b|
  {
    if b == [] {
      assert a + b == a;
    } else {
      var b' := b[..|b| - 1];
      assert (a + b)[..|a + b| - 1] == a + b';
      FailuresAppend(a, b');
    }
  }

  lemma {:induction false} NoFailuresOnStdout(log: seq<Line>)
    requires forall i | 0 <= i < |log| :: log[i].stream == Stdout
    ensures Failures(log) == []
  {
    if log != [] {
      NoFailuresOnStdout(log[..|log| - 1]);
    }
  }

  lemma HeaderHasNoFailures(files: seq<C.CsvFile>)
    ensures Failures(Header(files)) == []
  {
    NoFailuresOnStdout(Header(files));
  }

  lemma ClosingHasNoFailures()
    ensures Failures(Closing()) == []
  {
    NoFailuresOnStdout(Closing());
  }

  /** A converted file's report goes to stdout; a skipped file's is one NoModel failure. */
  lemma ReportFailures(mapping: map<string, string>, outcome: C.Outcome)
    ensures Failures(Report(mapping, outcome)) ==
      if outcome.Converted? && outcome.file in mapping then [] else [NoModel(outcome.file)]
  {
    var lines := Report(mapping, outcome);
    if outcome.Converted? && outcome.file in mapping {
      NoFailuresOnStdout(lines);
    } else {
      assert lines[..0] == [];
    }
  }

  /** Stderr receives exactly one report per file that has no model, and nothing else. */
  lemma FailuresAreUnmappedFiles(mapping: map<string, string>, csvPath: string, jsonPath: string, files: seq<C.CsvFile>)
    ensures Failures(RunLog(mapping, files, C.DispatchAll(mapping, csvPath, jsonPath, files))) == Unmapped(mapping, files)
  {
    var header := Header(files);
    var closing := Closing();
    var reports := Reports(mapping, C.DispatchAll(mapping, csvPath, jsonPath, files));
    ReportsFailures(mapping, csvPath, jsonPath, files);
    HeaderHasNoFailures(files);
    ClosingHasNoFailures();
    FailuresAppend(header, reports);
    FailuresAppend(header + reports, closing);
  }

  lemma {:induction false} ReportsFailures(mapping: map<string, string>, csvPath: string, jsonPath: string, files: seq<C.CsvFile>)
    ensures Failures(Reports(mapping, C.DispatchAll(mapping, csvPath, jsonPath, files))) == Unmapped(mapping, files)
  {
    if files != [] {
      var init := files[..|files| - 1];
      var last := files[|files| - 1];
      var done := C.DispatchAll(mapping, csvPath, jsonPath, init);
      var outcome := C.Dispatch(mapping, csvPath, jsonPath, last);
      var all := C.DispatchAll(mapping, csvPath, jsonPath, files);
      assert all == done + [outcome];
      assert all[..|all| - 1] == done;
      ReportsFailures(mapping, csvPath, jsonPath, init);
      ReportFailures(mapping, outcome);
      FailuresAppend(Reports(mapping, done), Report(mapping, outcome));
    }
  }
}
