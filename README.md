# Match analysis pipeline: trajectory plot and report assembly

This project models the core of `rattlebrain`, a command-line tool that turns the
telemetry of a recorded Rocket League match into a CSV frame log, a trajectory plot
and a markdown feedback report. Two parts are modelled and proved in Dafny:

- **The trajectory plot** (`src/plot.rs`). `plot_csv` reads the frame CSV row by
  row into `GameState` records. It stops at the first row that does not
  deserialize. Only when every row is read does it ask `plot_match` to draw them
  into `<csv>.png`. `plot_match` draws three marker series over a fixed field box.
  Each series has its own filter: the ball (`player_name == "_ball_"`), team 46 and
  team 50.
- **The command dispatch and the full analysis** (`src/main.rs`). The model covers
  argument checking, the paths derived from the match GUID and the order of the
  steps. It covers which failures make the process exit with status 1. It also
  covers the cleanup of JSON files and the feedback report: the insight text,
  followed by one `![guid](file name)` line per image found.

Each file has one module:

| file | module | models |
|---|---|---|
| `wrappers.dfy` | `Wrappers` | `Option`, `Result`, `Outcome`, and `filter_map(Result::ok)` |
| `plot.dfy` | `Plot` | `GameState`, `plot_csv` (a method with a loop), `plot_match` (the `Chart` it is asked to draw) |
| `paths.dfy` | `Paths` | the `format!` paths, `Path::file_name` and `Path::extension` |
| `report.dfy` | `Report` | the glob result, the image markdown (a method with a loop), line counting |
| `store.dfy` | `Store` | the output directory as a class `OutputDir` over a `map` from path to content; `delete_json_files` |
| `pipeline.dfy` | `Pipeline` | `main`'s branches, `process_conversion`, the shared report step |

Everything the program meets outside itself is an input, collected in
`Pipeline.World`:

- the extractor's result;
- each file's conversion outcome (read, parse or convert failure, or success);
- the directory listing, and the files whose deletion fails;
- the deserialized rows of each CSV file that can be opened;
- the drawing surface's outcome;
- the insight service's answer, and the outcomes of the feedback write, the glob,
  the open in append mode and the append.

A run is described by a `Run`: the stages it reaches, in order, and how it ends
(`Returned`, `Usage` or `Exit(1)`). Each state-changing method (`Analysis`,
`Feedback`, `Dispatch`, `DeleteJsonFiles`) is proved equal to a specification
function of its inputs and the old directory contents. The lemmas state the
properties of those functions.

### Behaviour of the code worth knowing

- Every conversion failure is fatal. `process_conversion` exits the process with
  status 1 on any read, parse or convert failure (src/main.rs:269-288). So the first
  failed conversion ends the run, and the later files, the cleanup and the plot
  never happen (`Pipeline.ConversionFailureIsFatal`).
- The three plot filters are independent, not a first-match chain
  (src/plot.rs:57, 64, 71). They pick what a first-match chain (the ball, else team
  46, else team 50) would pick on well-formed rows, where the team is unset exactly
  for the ball (`Plot.FiltersAgreeWithClassify`). A ball row that also carries team
  46 is drawn twice (`Plot.BallWithTeamDrawnTwice`).
- The `extract` and `plot` commands never exit with a nonzero status. On failure
  they print the error and return (src/main.rs:40-46, 87-90). Among the commands
  other than `analysis`, only `convert` exits with status 1, and only when reading
  or parsing its input fails (`Pipeline.OnlyAnalysisAndConvertExit`).
- The usage text lists a `query <match_guid> [focus]` command (src/main.rs:23). The
  dispatch only knows this command as `ai` (src/main.rs:193). `query` falls through
  to the unknown-command branch and runs nothing (`Pipeline.QueryIsUnknownCommand`).

## Model

| member | source | states |
|---|---|---|
| `Wrappers.Somes` | src/main.rs:150 | keeps exactly the readable glob entries, never more than there are |
| `Wrappers.SomesAppend` | src/main.rs:150 | `filter_map` keeps the iterator's order: the values of a concatenation are those of its parts, in turn |
| `Wrappers.SomesSingle` | src/main.rs:150 | an `Ok` entry yields its path, an `Err` entry nothing |
| `Wrappers.SomesCount` | src/main.rs:150 | `filter_map` keeps duplicates: each value occurs as often as its `Some` entry |
| `Plot.ReadRecordsOk` | src/plot.rs:29-34 | reading succeeds iff every row deserialized; it then returns every row, in file order, one per record |
| `Plot.ReadRecordsFirstError` | src/plot.rs:31-32 | a bad row, with only good rows before it, makes the read fail with that row's error |
| `Plot.ImagePath` | src/plot.rs:35 | the image path is the CSV path followed by exactly `.png` |
| `Plot.PlotCsv` | src/plot.rs:27-40 | succeeds iff the file opens, every row deserializes and drawing succeeds; returns all rows in order; `plot_match` is called, for `<csv>.png`, iff every row was read |
| `Plot.PlotMatch` | src/plot.rs:42-83 | the chart is at the given path, over x in [-300000, 300000] and y in [-500000, 500000] whatever the data; the marker count is the sum of the three filter counts; the legend reads "Ball" in red, "Team 46" in blue and "Team 50" in green, in drawing order |
| `Plot.Select` | src/plot.rs:57-72 | a filtered series is never longer than its input |
| `Plot.SelectAppend` | src/plot.rs:57-72 | filtering keeps input order: the filter of a concatenation is the concatenation of the filters |
| `Plot.SelectCounts` | src/plot.rs:57-72 | a series holds each row of that series as often as the input does, and no other row |
| `Plot.ChartSeries` | src/plot.rs:56-75 | the chart's markers of one series are exactly the points of the rows that series' own filter picks, independent of the other two filters |
| `Plot.MarkersFromRows` | src/plot.rs:58-72 | every marker sits at the (location_x, location_y) of an input row that its series' filter picks |
| `Plot.RowsGetMarkers` | src/plot.rs:57-72 | every row a filter picks gets a marker of that series at its (location_x, location_y) |
| `Plot.UnmatchedRowIgnored` | src/plot.rs:57-75 | a row that is not the ball and has no team, or a team other than 46 and 50, leaves the chart unchanged wherever it appears |
| `Plot.OnlyDrawnFieldsMatter` | src/plot.rs:58-72 | the chart depends only on each row's name, team, x and y; location_z, time, rotation and velocities are ignored |
| `Plot.FiltersAgreeWithClassify` | src/plot.rs:57-71 | on rows whose team is unset exactly for the ball, the independent filters pick what a first-match classification picks |
| `Plot.BallWithTeamDrawnTwice` | src/plot.rs:57-66 | the filters are not an else-chain: a ball row with team 46 gets a ball marker and a team-46 marker |
| `Plot.TwoRowExample` | src/plot.rs:56-75 | a team-46 row at (1, 2) and the ball at (0, 0) give one ball marker at (0, 0), then one team-46 marker at (1, 2), and nothing for team 50 |
| `Paths.ConversionInputs` | src/main.rs:115-121 | there are four conversion inputs, in a fixed order |
| `Paths.FramesCsv` | src/main.rs:127 | the plot input is the frame-log conversion input followed by `.csv` |
| `Paths.GuidDerivedPathsInjective` | src/main.rs:115-148 | paths built as `./output/<guid><suffix>` determine the GUID |
| `Paths.ConversionInputsDistinct` | src/main.rs:115-118 | the four conversion inputs are four different files |
| `Paths.Basename` | src/main.rs:160 | the file name of a path holds no `/` |
| `Paths.BasenameAppend` | src/main.rs:160 | appending text without a `/` extends the file name by that text |
| `Paths.BasenameOfEntry` | src/main.rs:160 | the file name of `dir/name` is `name` |
| `Paths.ExtensionOfSuffix` | src/main.rs:299 | a path whose file name has text before a final `.ext` has extension `ext` |
| `Paths.ConversionInputsAreJson` | src/main.rs:115-124 | the four conversion inputs have the `json` extension, so the cleanup targets them |
| `Paths.KeptArtifactExtensions` | src/main.rs:127 | the frame CSV, its `.png` and the feedback file have the extensions `csv`, `png` and `md`, so the cleanup keeps them |
| `Report.DiscoveredImages` | src/main.rs:149-155 | a rejected glob pattern finds no image; otherwise the images are exactly the readable glob entries |
| `Report.DiscoveredImagesAppend` | src/main.rs:150 | the images keep the order in which the glob yields its entries |
| `Report.DiscoveredImagesSingle` | src/main.rs:150 | a readable glob entry is one image, an unreadable one none |
| `Report.DiscoveredImagesCount` | src/main.rs:150 | a path the glob yields k times is among the images k times |
| `Report.ImageMarkdown` | src/main.rs:157-166 | the markdown built by pushing one line per image is the embed section of the image list |
| `Report.EmbedLineIsOneLine` | src/main.rs:161-165 | an embed line holds exactly one line break, its last character, when neither the GUID nor the file name holds one |
| `Report.EmbedLinesCount` | src/main.rs:158-166 | for n images the section has exactly n lines |
| `Report.EmbedLinesAppend` | src/main.rs:159-166 | the section of a list is the sections of its parts in order |
| `Report.EmbedLinesCons` | src/main.rs:159-166 | the section starts with the first image's line |
| `Report.EmbedLinesEmpty` | src/main.rs:157-166 | the section is empty iff there are no images |
| `Store.AfterCleanup` | src/main.rs:293-311 | an unreadable directory changes nothing; otherwise exactly the listed `json` entries whose deletion succeeds are removed, and the other files keep their content |
| `Store.CleanupComplete` | src/main.rs:296-305 | when every file is listed, no JSON file is left except those whose deletion failed, and every non-JSON file is unchanged |
| `Store.CleanupOfMatch` | src/main.rs:121-124 | the cleanup removes the four conversion inputs (unless their deletion fails) and keeps the frame CSV and the feedback file |
| `Store.OutputDir.constructor` | src/main.rs:115-148 | the `./output` directory, which every path of the analysis names, as the program finds it: it starts with the given files |
| `Store.OutputDir.Write` | src/main.rs:143 | writing replaces the file's content |
| `Store.OutputDir.AppendTo` | src/main.rs:169-180 | appending keeps the old content as a prefix |
| `Store.OutputDir.DeleteJsonFiles` | src/main.rs:293-311 | the directory afterwards is `AfterCleanup` of the old one: a failed delete does not stop the walk |
| `Pipeline.FirstFailed` | src/main.rs:121-123 | the conversions before the first failure all succeed, and the one at it fails |
| `Pipeline.Focus` | src/main.rs:201 | the `ai` focus is the fourth argument if there is one, else `"all"` |
| `Pipeline.FeedbackContent` | src/main.rs:138-191 | a feedback file is written iff the query answered and the write succeeded; the answer is a prefix of the content; with no image found the content is exactly the answer |
| `Pipeline.ReportRun` | src/main.rs:204-257 | the report step starts with the query, always returns normally, writes iff the query answered, and appends iff the write succeeded and images were found |
| `Pipeline.Feedback` | src/main.rs:138-191 | the shared report step of `analysis` and `ai` runs the stages of `ReportRun` and changes only the feedback file, as `FeedbackContent` says |
| `Pipeline.AnalysisRun` | src/main.rs:92-192 | the analysis starts with extraction and ends by returning or with `Exit(1)` |
| `Pipeline.Analysis` | src/main.rs:97-191 | the analysis method runs the stages of `AnalysisRun` and leaves the directory as `AnalysisFiles` says |
| `Pipeline.Dispatch` | src/main.rs:16-264 | `main` runs the stages of `DispatchRun` and changes the directory as `DispatchFiles` says |
| `Pipeline.QueryFailureWritesNothing` | src/main.rs:190 | without an answer nothing is written, and the step ends normally after the query |
| `Pipeline.ReportChangesOnlyFeedback` | src/main.rs:140-185 | the report step changes no file other than `./output/<guid>.feedback.md` |
| `Pipeline.NoImagesNoSection` | src/main.rs:143-157 | with no image found, including a rejected pattern, the feedback file is exactly the insight text |
| `Pipeline.ImagesAppended` | src/main.rs:157-185 | with images p1..pn appended, the feedback file is the insight text, then the n embed lines in list order |
| `Pipeline.FailedAppendKeepsText` | src/main.rs:169-181 | a failed open or append leaves the written insight text as it was |
| `Pipeline.NoConversionFailed` | src/main.rs:121-123 | when every conversion succeeds, none is counted as the first failure |
| `Pipeline.FirstFailedAt` | src/main.rs:266-288 | the first conversion that fails is the one that exits |
| `Pipeline.ExitStatusOfAnalysis` | src/main.rs:108-132 | the analysis exits with status 1 iff extraction, a conversion or the plot fails, and with 0 otherwise |
| `Pipeline.ExtractionFailureIsFatal` | src/main.rs:108-111 | a failed extraction exits 1 with no further stage and no file change |
| `Pipeline.ConversionFailureIsFatal` | src/main.rs:269-288 | the first failed conversion exits 1: later files are not converted, and there is no cleanup and no file change |
| `Pipeline.PlotFailureIsFatal` | src/main.rs:129-132 | a failed plot exits 1 right after the cleanup and the plot stage, with no query |
| `Pipeline.QueryFailureIsNotFatal` | src/main.rs:190 | a failed query ends the analysis with status 0 after the query, and writes no report |
| `Pipeline.FullAnalysis` | src/main.rs:115-185 | a successful run converts `.replay.frames.json`, `.player_stats.json`, `.goals.json` and `.highlights.json` in that order, cleans up, plots `.replay.frames.json.csv`, queries with `"all"`, writes, globs, and appends iff images were found |
| `Pipeline.AnalysisFocusIsAll` | src/main.rs:135 | the analysis queries only with focus `"all"` and the extracted GUID |
| `Pipeline.PlotImageIsFindable` | src/main.rs:148-165 | the plotted image matches `./output/<guid>*.png`, and its embed links `<guid>.replay.frames.json.csv.png` |
| `Pipeline.UsageRunsNothing` | src/main.rs:19-37 | fewer than two arguments, an unknown command, or a known command without its argument print the usage and run no step |
| `Pipeline.QueryIsUnknownCommand` | src/main.rs:259-262 | `query`, offered by the usage text, is an unknown command: it prints the usage and runs no step |
| `Pipeline.AiCommand` | src/main.rs:193-257 | `ai` runs the report step on its GUID with its focus, exits with status 0, and changes only the report |
| `Pipeline.OnlyAnalysisAndConvertExit` | src/main.rs:33-91 | outside `analysis`, only a failed read or parse in `convert` exits nonzero |

## Left out

- Drawing: the plotters surface, `BitMapBackend`, the caption, the mesh, the
  circle radius and the rendering of the legend. They are foreign library calls.
  A marker records its series, whose colour the legend gives. A chart is the
  `Chart` value `plot_match` is asked to draw, and whether drawing succeeds is an
  input. The image file itself is not added to the modelled directory.
- CSV parsing and serde deserialization. Each row is an abstract `Ok(record)` or
  `Err(message)`.
- `f64` arithmetic. Times, positions, rotations and velocities are integers. The
  logic only compares names and teams and copies coordinates.
- Glob pattern matching. The glob's result is an input. `Pipeline.MatchesImagePattern`
  states only which path the pattern would match for the plotted image.
- `Path::file_name` and `Path::extension` are modelled on plain strings, and
  `Paths.Basename` differs from `Path::file_name` on the last component only: on a
  trailing `/`, on a final `.`, which Rust skips, and on a final `..`, for which
  Rust has no file name and `unwrap_or_default()` (src/main.rs:160) would give an
  empty link. No `read_dir` entry (src/main.rs:298) and no match of the glob's
  `*.png` pattern (src/main.rs:148-150) ends in any of these ways.
- The extractor, the converter (the JSON flattener), the insight service and the
  `ai` module are not part of this model. Their outcomes are inputs. The files the
  extractor and the converter write are not added to the modelled directory.
- Console output (`println!` and `eprintln!`), including each diagnostic of a
  failed delete, glob or append.
- `process::exit` is modelled as the `Exit(1)` ending of a run. Tokio and the
  single awaited query are modelled as one external result.
- Store.OutputDir.AppendTo: a failed `write_all` is modelled as appending
  nothing. The real call can leave a partial write.
- Store.OutputDir.Write: a failed `fs::write` is modelled as leaving the file
  unchanged. The real call can leave it truncated.
