/**
  The file names the full analysis derives from a match GUID, and the two
  pieces of path logic it relies on: a path's base name and its extension.
 */
module Paths {
  import opened Wrappers

  /** The directory every artifact of a match lives in, with its separator. */
  const OutputPrefix: string := "./output/"

  function FramesJson(guid: string): string { OutputPrefix + guid + ".replay.frames.json" }
  function PlayerStatsJson(guid: string): string { OutputPrefix + guid + ".player_stats.json" }
  function GoalsJson(guid: string): string { OutputPrefix + guid + ".goals.json" }
  function HighlightsJson(guid: string): string { OutputPrefix + guid + ".highlights.json" }

  /** The four files extraction leaves for conversion, in the order they are converted. */
  function ConversionInputs(guid: string): (r: seq<string>)
    ensures |r| == 4
  {
    [FramesJson(guid), PlayerStatsJson(guid), GoalsJson(guid), HighlightsJson(guid)]
  }

  /** The CSV file the frame log is converted to, which the plot reads. */
  function FramesCsv(guid: string): (p: string)
    ensures p == FramesJson(guid) + ".csv"
  {
    OutputPrefix + guid + ".replay.frames.json.csv"
  }

  function FeedbackPath(guid: string): string { OutputPrefix + guid + ".feedback.md" }

  /** The glob pattern for the match's images. */
  function ImagePattern(guid: string): string { OutputPrefix + guid + "*.png" }

  /** Every path built from a GUID names that GUID alone: different GUIDs give different paths. */
  lemma {:induction false} GuidDerivedPathsInjective(g1: string, g2: string, suffix: string)
    requires OutputPrefix + g1 + suffix == OutputPrefix + g2 + suffix
    ensures g1 == g2
  {
    var p1, p2 := OutputPrefix + g1 + suffix, OutputPrefix + g2 + suffix;
    assert |g1| == |g2|;
    forall i | 0 <= i < |g1| ensures g1[i] == g2[i] {
      assert p1[|OutputPrefix| + i] == g1[i];
      assert p2[|OutputPrefix| + i] == g2[i];
    }
  }

  lemma SuffixAt(guid: string, suffix: string, k: nat)
    requires k < |suffix|
    ensures (OutputPrefix + guid + suffix)[|OutputPrefix| + |guid| + k] == suffix[k]
  {
  }

  /** The four conversion inputs are four different files. */
  lemma ConversionInputsDistinct(guid: string)
    ensures forall i, j :: 0 <= i < j < 4 ==> ConversionInputs(guid)[i] != ConversionInputs(guid)[j]
  {
    var n := |OutputPrefix| + |guid|;
    SuffixAt(guid, ".replay.frames.json", 1);
    SuffixAt(guid, ".player_stats.json", 1);
    SuffixAt(guid, ".goals.json", 1);
    SuffixAt(guid, ".highlights.json", 1);
    var ps := ConversionInputs(guid);
    assert ps[0][n + 1] == 'r' && ps[1][n + 1] == 'p' && ps[2][n + 1] == 'g' && ps[3][n + 1] == 'h';
  }

  // ---------------------------------------------------------------------------
  // Base names and extensions

  /** The last component of a path: everything after its last `/`. */
  function Basename(p: string): (r: string)
    ensures '/' !in r
    decreases |p|
  {
    if p == [] || p[|p| - 1] == '/' then []
    else Basename(p[..|p| - 1]) + [p[|p| - 1]]
  }

  /** Text that holds no `/` stays in the base name when appended. */
  lemma {:induction false} BasenameAppend(a: string, b: string)
    requires '/' !in b
    ensures Basename(a + b) == Basename(a) + b
    decreases |b|
  {
    if b == [] {
      assert a + b == a;
    } else {
      var c := b[|b| - 1];
      var b' := b[..|b| - 1];
      var x := a + b;
      assert x[|x| - 1] == c;
      assert c in b;
      assert x[..|x| - 1] == a + b';
      assert Basename(x) == Basename(a + b') + [c];
      BasenameAppend(a, b');
      assert b' + [c] == b;
    }
  }

  /** The base name of an entry `dir/name` of a directory is `name`. */
  lemma BasenameOfEntry(dir: string, name: string)
    requires '/' !in name
    ensures Basename(dir + "/" + name) == name
  {
    BasenameAppend(dir + "/", name);
  }

  /** The text after the last `.` of a file name, when that `.` is not its first character. */
  function AfterLastDot(name: string): Option<string>
    decreases |name|
  {
    if name == [] then None
    else if name[|name| - 1] == '.' then (if |name| > 1 then Some([]) else None)
    else
      match AfterLastDot(name[..|name| - 1])
      case None => None
      case Some(e) => Some(e + [name[|name| - 1]])
  }

  /** A path's extension, as Rust's `Path::extension` finds it for a file name:
      none for `..`, for a name without a `.`, or whose only `.` comes first. */
  function Extension(p: string): Option<string>
  {
    var name := Basename(p);
    if name == ".." then None else AfterLastDot(name)
  }

  predicate IsJson(p: string)
  {
    Extension(p) == Some("json")
  }

  lemma {:induction false} AfterLastDotOfSuffix(stem: string, ext: string)
    requires stem != [] && '.' !in ext
    ensures AfterLastDot(stem + "." + ext) == Some(ext)
    decreases |ext|
  {
    if ext == [] {
      assert stem + "." + ext == stem + ".";
    } else {
      var c := ext[|ext| - 1];
      var ext' := ext[..|ext| - 1];
      assert (stem + "." + ext)[..|stem + "." + ext| - 1] == stem + "." + ext';
      assert c in ext;
      AfterLastDotOfSuffix(stem, ext');
      assert ext' + [c] == ext;
    }
  }

  /** A path whose last component has text before the final `.ext` has extension `ext`. */
  lemma ExtensionOfSuffix(stem: string, ext: string)
    requires Basename(stem) != [] && ext != [] && '.' !in ext && '/' !in ext
    ensures Extension(stem + "." + ext) == Some(ext)
  {
    assert '/' !in "." + ext;
    BasenameAppend(stem, "." + ext);
    assert stem + "." + ext == stem + ("." + ext);
    assert Basename(stem) + ("." + ext) == Basename(stem) + "." + ext;
    AfterLastDotOfSuffix(Basename(stem), ext);
  }

  /** The base name of `./output/<guid><name>` is not empty when `name` is not. */
  lemma OutputBasenameNonEmpty(guid: string, name: string)
    requires name != [] && '/' !in name
    ensures Basename(OutputPrefix + guid + name) != []
  {
    BasenameAppend(OutputPrefix + guid, name);
  }

  /** `./output/<guid><name>.<ext>` has extension `ext`. */
  lemma OutputFileExtension(guid: string, name: string, ext: string)
    requires name != [] && '/' !in name
    requires ext != [] && '.' !in ext && '/' !in ext
    ensures Extension(OutputPrefix + guid + name + "." + ext) == Some(ext)
  {
    OutputBasenameNonEmpty(guid, name);
    ExtensionOfSuffix(OutputPrefix + guid + name, ext);
  }

  /** The four conversion inputs have the `json` extension, so the cleanup after conversion removes them. */
  lemma ConversionInputsAreJson(guid: string)
    ensures forall p :: p in ConversionInputs(guid) ==> IsJson(p)
  {
    FramesJsonIsJson(guid);
    PlayerStatsJsonIsJson(guid);
    GoalsJsonIsJson(guid);
    HighlightsJsonIsJson(guid);
  }

  lemma FramesJsonIsJson(guid: string) ensures IsJson(FramesJson(guid))
  {
    OutputFileExtension(guid, ".replay.frames", "json");
    assert OutputPrefix + guid + ".replay.frames" + "." + "json" == FramesJson(guid);
  }

  lemma PlayerStatsJsonIsJson(guid: string) ensures IsJson(PlayerStatsJson(guid))
  {
    OutputFileExtension(guid, ".player_stats", "json");
    assert OutputPrefix + guid + ".player_stats" + "." + "json" == PlayerStatsJson(guid);
  }

  lemma GoalsJsonIsJson(guid: string) ensures IsJson(GoalsJson(guid))
  {
    OutputFileExtension(guid, ".goals", "json");
    assert OutputPrefix + guid + ".goals" + "." + "json" == GoalsJson(guid);
  }

  lemma HighlightsJsonIsJson(guid: string) ensures IsJson(HighlightsJson(guid))
  {
    OutputFileExtension(guid, ".highlights", "json");
    assert OutputPrefix + guid + ".highlights" + "." + "json" == HighlightsJson(guid);
  }

  /** The frame CSV, its image and the feedback report are not `json` files, so the cleanup keeps them. */
  lemma KeptArtifactExtensions(guid: string)
    ensures Extension(FramesCsv(guid)) == Some("csv")
    ensures Extension(FramesCsv(guid) + ".png") == Some("png")
    ensures Extension(FeedbackPath(guid)) == Some("md")
  {
    FramesCsvIsCsv(guid);
    FramesImageIsPng(guid);
    FeedbackIsMarkdown(guid);
  }

  lemma FramesCsvIsCsv(guid: string) ensures Extension(FramesCsv(guid)) == Some("csv")
  {
    OutputCsvExtension(OutputPrefix + guid);
  }

  lemma OutputCsvExtension(stem: string)
    ensures Extension(stem + ".replay.frames.json.csv") == Some("csv")
  {
    assert stem + ".replay.frames.json.csv" == (stem + ".replay.frames.json") + "." + "csv";
    assert Basename(stem + ".replay.frames.json") != [] by {
      BasenameAppend(stem, ".replay.frames.json");
    }
    ExtensionOfSuffix(stem + ".replay.frames.json", "csv");
  }

  lemma FramesImageIsPng(guid: string) ensures Extension(FramesCsv(guid) + ".png") == Some("png")
  {
    OutputFileExtension(guid, ".replay.frames.json.csv", "png");
    assert OutputPrefix + guid + ".replay.frames.json.csv" + "." + "png" == FramesCsv(guid) + ".png";
  }

  lemma FeedbackIsMarkdown(guid: string) ensures Extension(FeedbackPath(guid)) == Some("md")
  {
    OutputFileExtension(guid, ".feedback", "md");
    assert OutputPrefix + guid + ".feedback" + "." + "md" == FeedbackPath(guid);
  }
}
