/**
  The command dispatch of `main` and the full analysis it runs: extract, convert
  the four artifacts, clean up the JSON files, plot the frame log, query for
  insights and assemble the feedback report. Everything outside the program —
  the extractor, the converter, the insight service, the CSV contents, the
  drawing surface and the outcome of each file operation — is an input, held in
  a `World`. A run is described by the stages it reaches, in order, and how it
  ends.
 */
module Pipeline {
  import opened Wrappers
  import Plot
  import Paths
  import Report
  import Store

  /** How `process_conversion` fares on one file: reading it, parsing its JSON or
      converting it can fail. */
  datatype Conversion = ReadFailed | ParseFailed | ConvertFailed | Converted

  /** The outcomes the report step meets: the insight service's answer, the write of
      the feedback file, the image glob, and the open and the write in append mode. */
  datatype Insight = Insight(
    query: Result<string, string>,
    writeOk: bool,
    glob: Result<seq<Option<string>>, string>,
    openOk: bool,
    appendOk: bool)

  /** Everything the program meets outside itself. `conversions` gives each file's
      conversion outcome (a file not listed cannot be read); `csvFiles` the deserialized
      rows of each CSV file that can be opened. */
  datatype World = World(
    extraction: Result<string, string>,
    conversions: map<string, Conversion>,
    listing: Result<seq<Option<string>>, string>,
    undeletable: set<string>,
    csvFiles: map<string, seq<Plot.Row>>,
    draw: Outcome<string>,
    insight: Insight)

  /** A step the program attempts. */
  datatype Stage =
    | Extract(input: string)
    | Convert(path: string)
    | Cleanup
    | PlotCsv(csvPath: string)
    | Query(guid: string, focus: string)
    | WriteFeedback(path: string)
    | FindImages(pattern: string)
    | AppendImages(path: string)

  /** How a run ends: returning from `main` after its work, after printing the usage
      text, or through `process::exit`. */
  datatype Ending = Returned | Usage | Exit(code: int)

  datatype Run = Run(stages: seq<Stage>, ending: Ending)

  function ExitStatus(e: Ending): int
  {
    if e.Exit? then e.code else 0
  }

  const AllFocus: string := "all"

  // ---------------------------------------------------------------------------
  // The outcomes of the external steps

  function ConversionOf(w: World, path: string): Conversion
  {
    if path in w.conversions then w.conversions[path] else ReadFailed
  }

  /** `Reader::from_path` over the CSV file at `path`. */
  function CsvReader(w: World, path: string): Result<seq<Plot.Row>, string>
  {
    if path in w.csvFiles then Ok(w.csvFiles[path]) else Err("cannot open " + path)
  }

  /** The index of the first file whose conversion fails, or `|paths|` when none does. */
  function FirstFailed(w: World, paths: seq<string>): (k: nat)
    ensures k <= |paths|
    ensures forall j :: 0 <= j < k ==> ConversionOf(w, paths[j]) == Converted
    ensures k < |paths| ==> ConversionOf(w, paths[k]) != Converted
    decreases |paths|
  {
    if paths == [] then 0
    else if ConversionOf(w, paths[0]) != Converted then 0
    else 1 + FirstFailed(w, paths[1..])
  }

  /** One conversion stage per path, in order. */
  function ConvertStages(paths: seq<string>): seq<Stage>
  {
    seq(|paths|, i requires 0 <= i < |paths| => Convert(paths[i]))
  }

  /** The focus of the `ai` command: its fourth argument, or "all" when there is none. */
  function Focus(args: seq<string>): (f: string)
    ensures |args| > 3 ==> f == args[3]
    ensures |args| <= 3 ==> f == AllFocus
  {
    if |args| > 3 then args[3] else AllFocus
  }

  // ---------------------------------------------------------------------------
  // The report step, shared by `analysis` and `ai`

  /** The content of the feedback file after the report step, `None` when it is not written. */
  function FeedbackContent(guid: string, ins: Insight): (r: Option<string>)
    ensures r.Some? <==> ins.query.Ok? && ins.writeOk
    ensures r.Some? ==> |ins.query.value| <= |r.value| && r.value[..|ins.query.value|] == ins.query.value
    ensures r.Some? && Report.DiscoveredImages(ins.glob) == [] ==> r.value == ins.query.value
  {
    if ins.query.Err? || !ins.writeOk then None
    else
      var images := Report.DiscoveredImages(ins.glob);
      var appended := if images != [] && ins.openOk && ins.appendOk then Report.EmbedLines(guid, images) else "";
      Some(ins.query.value + appended)
  }

  function ReportFiles(files: map<string, string>, guid: string, ins: Insight): map<string, string>
  {
    match FeedbackContent(guid, ins)
    case None => files
    case Some(content) => files[Paths.FeedbackPath(guid) := content]
  }

  /** The stages of the report step: the query; on an answer, the write; after the write,
      the glob; and when images were found, the append. */
  function ReportRun(guid: string, focus: string, ins: Insight): (r: Run)
    ensures r.ending == Returned && |r.stages| >= 1 && r.stages[0] == Query(guid, focus)
    ensures WriteFeedback(Paths.FeedbackPath(guid)) in r.stages <==> ins.query.Ok?
    ensures AppendImages(Paths.FeedbackPath(guid)) in r.stages <==>
      ins.query.Ok? && ins.writeOk && Report.DiscoveredImages(ins.glob) != []
  {
    var fp := Paths.FeedbackPath(guid);
    var queried := [Query(guid, focus)];
    if ins.query.Err? then Run(queried, Returned)
    else if !ins.writeOk then Run(queried + [WriteFeedback(fp)], Returned)
    else
      var searched := queried + [WriteFeedback(fp), FindImages(Paths.ImagePattern(guid))];
      if Report.DiscoveredImages(ins.glob) == [] then Run(searched, Returned)
      else Run(searched + [AppendImages(fp)], Returned)
  }

  method Feedback(dir: Store.OutputDir, guid: string, focus: string, ins: Insight) returns (run: Run)
    modifies dir
    ensures run == ReportRun(guid, focus, ins)
    ensures dir.files == ReportFiles(old(dir.files), guid, ins)
  {
    var stages := [Query(guid, focus)];
    if ins.query.Err? {
      return Run(stages, Returned);
    }
    var response := ins.query.value;
    var feedbackFilePath := Paths.FeedbackPath(guid);
    stages := stages + [WriteFeedback(feedbackFilePath)];
    if !ins.writeOk {
      return Run(stages, Returned);
    }
    dir.Write(feedbackFilePath, response);
    assert response + "" == response;
    stages := stages + [FindImages(Paths.ImagePattern(guid))];
    var imagePaths := Report.DiscoveredImages(ins.glob);
    if imagePaths != [] {
      var imageMarkdown := Report.ImageMarkdown(guid, imagePaths);
      stages := stages + [AppendImages(feedbackFilePath)];
      if ins.openOk && ins.appendOk {
        dir.AppendTo(feedbackFilePath, imageMarkdown);
      }
    }
    run := Run(stages, Returned);
  }

  // ---------------------------------------------------------------------------
  // The full analysis

  /** The stages of `analysis` on `input`, and how it ends. */
  function AnalysisRun(input: string, w: World): (r: Run)
    ensures |r.stages| >= 1 && r.stages[0] == Extract(input)
    ensures r.ending == Returned || r.ending == Exit(1)
  {
    var extracted := [Extract(input)];
    match w.extraction
    case Err(_) => Run(extracted, Exit(1))
    case Ok(guid) =>
      var inputs := Paths.ConversionInputs(guid);
      var k := FirstFailed(w, inputs);
      if k < |inputs| then Run(extracted + ConvertStages(inputs[..k + 1]), Exit(1))
      else
        var csv := Paths.FramesCsv(guid);
        var plotted := extracted + ConvertStages(inputs) + [Cleanup, PlotCsv(csv)];
        if Plot.PlotResult(CsvReader(w, csv), w.draw).Err? then Run(plotted, Exit(1))
        else
          var report := ReportRun(guid, AllFocus, w.insight);
          Run(plotted + report.stages, report.ending)
  }

  /** The output directory after `analysis`. */
  function AnalysisFiles(files: map<string, string>, w: World): map<string, string>
  {
    match w.extraction
    case Err(_) => files
    case Ok(guid) =>
      if FirstFailed(w, Paths.ConversionInputs(guid)) < 4 then files
      else
        var cleaned := Store.AfterCleanup(files, w.listing, w.undeletable);
        var csv := Paths.FramesCsv(guid);
        if Plot.PlotResult(CsvReader(w, csv), w.draw).Err? then cleaned
        else ReportFiles(cleaned, guid, w.insight)
  }

  method Analysis(dir: Store.OutputDir, input: string, w: World) returns (run: Run)
    modifies dir
    ensures run == AnalysisRun(input, w)
    ensures dir.files == AnalysisFiles(old(dir.files), w)
  {
    var stages := [Extract(input)];
    if w.extraction.Err? {
      return Run(stages, Exit(1));
    }
    var matchGuid := w.extraction.value;
    var inputs := Paths.ConversionInputs(matchGuid);
    ghost var k := FirstFailed(w, inputs);
    for i := 0 to |inputs|
      invariant i <= k
      invariant stages == [Extract(input)] + ConvertStages(inputs[..i])
    {
      stages := stages + [Convert(inputs[i])];
      assert stages == [Extract(input)] + ConvertStages(inputs[..i + 1]);
      if ConversionOf(w, inputs[i]) != Converted {
        return Run(stages, Exit(1));
      }
    }
    assert inputs[..|inputs|] == inputs;
    dir.DeleteJsonFiles(w.listing, w.undeletable);
    var csvFile := Paths.FramesCsv(matchGuid);
    stages := stages + [Cleanup, PlotCsv(csvFile)];
    var plotted, _ := Plot.PlotCsv(csvFile, CsvReader(w, csvFile), w.draw);
    if plotted.Err? {
      return Run(stages, Exit(1));
    }
    var report := Feedback(dir, matchGuid, AllFocus, w.insight);
    run := Run(stages + report.stages, report.ending);
  }

  // ---------------------------------------------------------------------------
  // Command dispatch

  predicate KnownCommand(c: string)
  {
    c == "extract" || c == "convert" || c == "plot" || c == "analysis" || c == "ai"
  }

  /** The stages of `main` on the arguments `args` (the program name first), and how it ends. */
  function DispatchRun(args: seq<string>, w: World): Run
  {
    if |args| < 2 || !KnownCommand(args[1]) || |args| < 3 then Run([], Usage)
    else
      var command, input := args[1], args[2];
      if command == "extract" then Run([Extract(input)], Returned)
      else if command == "convert" then
        var c := ConversionOf(w, input);
        Run([Convert(input)], if c == ReadFailed || c == ParseFailed then Exit(1) else Returned)
      else if command == "plot" then Run([PlotCsv(input)], Returned)
      else if command == "analysis" then AnalysisRun(input, w)
      else ReportRun(input, Focus(args), w.insight)
  }

  /** The output directory after `main`; only `analysis` and `ai` change it here. */
  function DispatchFiles(files: map<string, string>, args: seq<string>, w: World): map<string, string>
  {
    if |args| < 3 then files
    else if args[1] == "analysis" then AnalysisFiles(files, w)
    else if args[1] == "ai" then ReportFiles(files, args[2], w.insight)
    else files
  }

  method Dispatch(dir: Store.OutputDir, args: seq<string>, w: World) returns (run: Run)
    modifies dir
    ensures run == DispatchRun(args, w)
    ensures dir.files == DispatchFiles(old(dir.files), args, w)
  {
    if |args| < 2 {
      return Run([], Usage);
    }
    var command := args[1];
    if !KnownCommand(command) || |args| < 3 {
      return Run([], Usage);
    }
    var input := args[2];
    if command == "extract" {
      run := Run([Extract(input)], Returned);
    } else if command == "convert" {
      var c := ConversionOf(w, input);
      if c == ReadFailed || c == ParseFailed {
        run := Run([Convert(input)], Exit(1));
      } else {
        run := Run([Convert(input)], Returned);
      }
    } else if command == "plot" {
      var _, _ := Plot.PlotCsv(input, CsvReader(w, input), w.draw);
      run := Run([PlotCsv(input)], Returned);
    } else if command == "analysis" {
      run := Analysis(dir, input, w);
    } else {
      run := Feedback(dir, input, Focus(args), w.insight);
    }
  }

  // ---------------------------------------------------------------------------
  // Properties of the report step

  /** Without an answer from the insight service nothing is written and the step ends normally. */
  lemma QueryFailureWritesNothing(files: map<string, string>, guid: string, focus: string, ins: Insight)
    requires ins.query.Err?
    ensures ReportRun(guid, focus, ins) == Run([Query(guid, focus)], Returned)
    ensures ReportFiles(files, guid, ins) == files
  {
  }

  /** The report step touches the feedback file of its match and nothing else. */
  lemma ReportChangesOnlyFeedback(files: map<string, string>, guid: string, ins: Insight, p: string)
    requires p != Paths.FeedbackPath(guid)
    ensures p in ReportFiles(files, guid, ins) <==> p in files
    ensures p in files ==> ReportFiles(files, guid, ins)[p] == files[p]
  {
  }

  /** With no image found, including when the glob pattern is rejected, the feedback file
      holds the insight text exactly. */
  lemma NoImagesNoSection(files: map<string, string>, guid: string, ins: Insight)
    requires ins.query.Ok? && ins.writeOk && Report.DiscoveredImages(ins.glob) == []
    ensures Paths.FeedbackPath(guid) in ReportFiles(files, guid, ins)
    ensures ReportFiles(files, guid, ins)[Paths.FeedbackPath(guid)] == ins.query.value
  {
  }

  /** With images p1..pn found and appended, the feedback file is the insight text followed
      by the n embed lines, one per image in list order. */
  lemma ImagesAppended(files: map<string, string>, guid: string, ins: Insight)
    requires ins.query.Ok? && ins.writeOk && ins.openOk && ins.appendOk
    requires Report.DiscoveredImages(ins.glob) != []
    requires '\n' !in guid
    requires forall p :: p in Report.DiscoveredImages(ins.glob) ==> '\n' !in Paths.Basename(p)
    ensures var images := Report.DiscoveredImages(ins.glob);
      var content := ReportFiles(files, guid, ins)[Paths.FeedbackPath(guid)];
      content == ins.query.value + Report.EmbedLines(guid, images) &&
      Report.CountNewlines(content[|ins.query.value|..]) == |images| &&
      Report.EmbedLines(guid, images) ==
        Report.EmbedLine(guid, images[0]) + Report.EmbedLines(guid, images[1..])
  {
    var images := Report.DiscoveredImages(ins.glob);
    var content := ins.query.value + Report.EmbedLines(guid, images);
    assert content[|ins.query.value|..] == Report.EmbedLines(guid, images);
    Report.EmbedLinesCount(guid, images);
    Report.EmbedLinesCons(guid, images);
  }

  /** When the append cannot be done, the insight text stays as it was written. */
  lemma FailedAppendKeepsText(files: map<string, string>, guid: string, ins: Insight)
    requires ins.query.Ok? && ins.writeOk && !(ins.openOk && ins.appendOk)
    ensures ReportFiles(files, guid, ins)[Paths.FeedbackPath(guid)] == ins.query.value
  {
    assert ins.query.value + "" == ins.query.value;
  }

  // ---------------------------------------------------------------------------
  // Properties of the full analysis

  lemma {:induction false} NoConversionFailed(w: World, paths: seq<string>)
    requires forall p :: p in paths ==> ConversionOf(w, p) == Converted
    ensures FirstFailed(w, paths) == |paths|
    decreases |paths|
  {
    if paths != [] {
      assert paths[0] in paths;
      assert forall p :: p in paths[1..] ==> p in paths;
      NoConversionFailed(w, paths[1..]);
    }
  }

  lemma {:induction false} FirstFailedAt(w: World, paths: seq<string>, k: nat)
    requires k < |paths| && ConversionOf(w, paths[k]) != Converted
    requires forall j :: 0 <= j < k ==> ConversionOf(w, paths[j]) == Converted
    ensures FirstFailed(w, paths) == k
    decreases |paths|
  {
    if k > 0 {
      assert ConversionOf(w, paths[0]) == Converted;
      FirstFailedAt(w, paths[1..], k - 1);
    }
  }

  /** A failure of extraction, of any of the four conversions, or of the plot. */
  predicate Fatal(w: World)
  {
    match w.extraction
    case Err(_) => true
    case Ok(guid) =>
      (exists p :: p in Paths.ConversionInputs(guid) && ConversionOf(w, p) != Converted) ||
      Plot.PlotResult(CsvReader(w, Paths.FramesCsv(guid)), w.draw).Err?
  }

  /** `analysis` exits with status 1 exactly on a fatal failure, and otherwise with 0. */
  lemma ExitStatusOfAnalysis(input: string, w: World)
    ensures ExitStatus(AnalysisRun(input, w).ending) == (if Fatal(w) then 1 else 0)
  {
    if w.extraction.Ok? {
      var inputs := Paths.ConversionInputs(w.extraction.value);
      var k := FirstFailed(w, inputs);
      if k < |inputs| {
        assert inputs[k] in inputs;
      }
    }
  }

  /** A failed extraction ends the run at once. */
  lemma ExtractionFailureIsFatal(files: map<string, string>, input: string, w: World)
    requires w.extraction.Err?
    ensures AnalysisRun(input, w) == Run([Extract(input)], Exit(1))
    ensures AnalysisFiles(files, w) == files
  {
  }

  /** The first failed conversion ends the run with status 1: the files after it are not
      converted and no cleanup, plot or query follows. */
  lemma ConversionFailureIsFatal(files: map<string, string>, input: string, w: World, k: nat)
    requires w.extraction.Ok?
    requires k < 4
    requires ConversionOf(w, Paths.ConversionInputs(w.extraction.value)[k]) != Converted
    requires forall j :: 0 <= j < k ==> ConversionOf(w, Paths.ConversionInputs(w.extraction.value)[j]) == Converted
    ensures AnalysisRun(input, w) ==
      Run([Extract(input)] + ConvertStages(Paths.ConversionInputs(w.extraction.value)[..k + 1]), Exit(1))
    ensures Cleanup !in AnalysisRun(input, w).stages
    ensures AnalysisFiles(files, w) == files
  {
    FirstFailedAt(w, Paths.ConversionInputs(w.extraction.value), k);
  }

  /** A failed plot ends the run with status 1 after the cleanup: no query is made and no
      report is written. */
  lemma PlotFailureIsFatal(files: map<string, string>, input: string, w: World)
    requires w.extraction.Ok?
    requires forall p :: p in Paths.ConversionInputs(w.extraction.value) ==> ConversionOf(w, p) == Converted
    requires Plot.PlotResult(CsvReader(w, Paths.FramesCsv(w.extraction.value)), w.draw).Err?
    ensures var guid := w.extraction.value;
      AnalysisRun(input, w) ==
        Run([Extract(input)] + ConvertStages(Paths.ConversionInputs(guid)) + [Cleanup, PlotCsv(Paths.FramesCsv(guid))], Exit(1))
    ensures AnalysisFiles(files, w) == Store.AfterCleanup(files, w.listing, w.undeletable)
  {
    NoConversionFailed(w, Paths.ConversionInputs(w.extraction.value));
  }

  /** A failed query is not fatal: after the cleanup and the plot the run ends normally,
      with no feedback file written. */
  lemma QueryFailureIsNotFatal(files: map<string, string>, input: string, w: World)
    requires w.extraction.Ok?
    requires forall p :: p in Paths.ConversionInputs(w.extraction.value) ==> ConversionOf(w, p) == Converted
    requires Plot.PlotResult(CsvReader(w, Paths.FramesCsv(w.extraction.value)), w.draw).Ok?
    requires w.insight.query.Err?
    ensures var guid := w.extraction.value;
      AnalysisRun(input, w) ==
        Run([Extract(input)] + ConvertStages(Paths.ConversionInputs(guid)) +
            [Cleanup, PlotCsv(Paths.FramesCsv(guid)), Query(guid, AllFocus)], Returned)
    ensures ExitStatus(AnalysisRun(input, w).ending) == 0
    ensures AnalysisFiles(files, w) == Store.AfterCleanup(files, w.listing, w.undeletable)
  {
    NoConversionFailed(w, Paths.ConversionInputs(w.extraction.value));
  }

  /** A run in which every step succeeds: the four conversions in their fixed order, the
      cleanup, the plot of the frame CSV, the query with focus "all", the write, the glob,
      and the append when images were found; the report holds the insight text and the
      image section. */
  lemma FullAnalysis(files: map<string, string>, input: string, w: World)
    requires w.extraction.Ok?
    requires forall p :: p in Paths.ConversionInputs(w.extraction.value) ==> ConversionOf(w, p) == Converted
    requires Plot.PlotResult(CsvReader(w, Paths.FramesCsv(w.extraction.value)), w.draw).Ok?
    requires w.insight.query.Ok? && w.insight.writeOk
    ensures var guid := w.extraction.value;
      var fp := Paths.FeedbackPath(guid);
      var images := Report.DiscoveredImages(w.insight.glob);
      AnalysisRun(input, w) ==
        Run([Extract(input),
             Convert("./output/" + guid + ".replay.frames.json"),
             Convert("./output/" + guid + ".player_stats.json"),
             Convert("./output/" + guid + ".goals.json"),
             Convert("./output/" + guid + ".highlights.json"),
             Cleanup,
             PlotCsv("./output/" + guid + ".replay.frames.json.csv"),
             Query(guid, "all"),
             WriteFeedback(fp),
             FindImages(Paths.ImagePattern(guid))] +
            (if images == [] then [] else [AppendImages(fp)]),
            Returned)
    ensures var guid := w.extraction.value;
      var fp := Paths.FeedbackPath(guid);
      fp in AnalysisFiles(files, w) &&
      AnalysisFiles(files, w)[fp] == FeedbackContent(guid, w.insight).value
  {
    var guid := w.extraction.value;
    var inputs := Paths.ConversionInputs(guid);
    NoConversionFailed(w, inputs);
    assert ConvertStages(inputs) == [Convert(inputs[0]), Convert(inputs[1]), Convert(inputs[2]), Convert(inputs[3])];
  }

  /** The analysis always queries with focus "all". */
  lemma AnalysisFocusIsAll(input: string, w: World, guid: string, focus: string)
    requires Query(guid, focus) in AnalysisRun(input, w).stages
    ensures focus == AllFocus
    ensures w.extraction == Ok(guid)
  {
  }

  /** A file the glob `./output/<guid>*.png` matches: `*` stands for any text within the
      last path component. */
  predicate MatchesImagePattern(guid: string, p: string)
  {
    var n := |Paths.OutputPrefix + guid|;
    |p| >= n + 4 && p[..n] == Paths.OutputPrefix + guid && p[|p| - 4..] == ".png" && '/' !in p[n..]
  }

  /** The image the analysis plots is one the glob can find, and its embed links the file
      name `<guid>.replay.frames.json.csv.png` next to the report. */
  lemma PlotImageIsFindable(guid: string)
    requires '/' !in guid
    ensures MatchesImagePattern(guid, Plot.ImagePath(Paths.FramesCsv(guid)))
    ensures Report.EmbedLine(guid, Plot.ImagePath(Paths.FramesCsv(guid))) ==
      "![" + guid + "](" + guid + ".replay.frames.json.csv.png)\n"
  {
    var image := Plot.ImagePath(Paths.FramesCsv(guid));
    var name := guid + ".replay.frames.json.csv.png";
    var n := |Paths.OutputPrefix + guid|;
    assert image == Paths.OutputPrefix + name;
    assert image[n..] == ".replay.frames.json.csv.png";
    assert '/' !in name;
    Paths.BasenameAppend(Paths.OutputPrefix, name);
    assert Paths.Basename(Paths.OutputPrefix) == [];
  }

  // ---------------------------------------------------------------------------
  // Properties of the command dispatch

  /** Too few arguments, or an unknown command, print the usage text and run no step. */
  lemma UsageRunsNothing(files: map<string, string>, args: seq<string>, w: World)
    requires |args| < 2 || !KnownCommand(args[1]) || |args| < 3
    ensures DispatchRun(args, w) == Run([], Usage)
    ensures DispatchFiles(files, args, w) == files
  {
  }

  /** The usage text offers a `query` command, but the dispatch knows it only as `ai`:
      `query` is an unknown command, and runs nothing. */
  lemma QueryIsUnknownCommand(files: map<string, string>, args: seq<string>, w: World)
    requires |args| >= 2 && args[1] == "query"
    ensures DispatchRun(args, w) == Run([], Usage)
    ensures DispatchFiles(files, args, w) == files
  {
  }

  /** The `ai` command runs the report step on its GUID argument with its focus. */
  lemma AiCommand(files: map<string, string>, args: seq<string>, w: World)
    requires |args| >= 3 && args[1] == "ai"
    ensures DispatchRun(args, w) == ReportRun(args[2], Focus(args), w.insight)
    ensures DispatchRun(args, w).stages[0] == Query(args[2], if |args| > 3 then args[3] else "all")
    ensures ExitStatus(DispatchRun(args, w).ending) == 0
    ensures DispatchFiles(files, args, w) == ReportFiles(files, args[2], w.insight)
  {
  }

  /** Outside `analysis`, only a failed read or parse in the `convert` command exits
      with a nonzero status; a failed extraction, conversion or plot does not. */
  lemma OnlyAnalysisAndConvertExit(args: seq<string>, w: World)
    requires |args| >= 3 && args[1] != "analysis"
    ensures ExitStatus(DispatchRun(args, w).ending) != 0 <==>
      args[1] == "convert" && ConversionOf(w, args[2]) in {ReadFailed, ParseFailed}
  {
  }
}
