/**
  The trajectory plot: reading every CSV row of a frame log into a `GameState`,
  and choosing the markers that the chart draws for the ball and the two teams.
  Positions are integers here; the drawing surface itself is represented by the
  `Chart` value that the plotting call is asked to draw.
 */
module Plot {
  import opened Wrappers

  /** Rust's `u32`. */
  type U32 = x: int | 0 <= x < 0x1_0000_0000

  /** One row of the frame log. */
  datatype GameState = GameState(
    time: int,
    team: Option<U32>,
    playerName: string,
    locationX: int,
    locationY: int,
    locationZ: int,
    rotationX: int,
    rotationY: int,
    rotationZ: int,
    rotationW: int,
    angularVelocityX: int,
    angularVelocityY: int,
    angularVelocityZ: int,
    linearVelocityX: int,
    linearVelocityY: int,
    linearVelocityZ: int)

  /** A CSV record after deserialization: a row, or the deserializer's error. */
  type Row = Result<GameState, string>

  /** Why `plot_csv` failed: the file could not be opened, a row did not deserialize,
      or the drawing surface reported an error. */
  datatype PlotError = OpenError(msg: string) | RowError(msg: string) | DrawError(msg: string)

  /** The player name that marks the ball's rows. */
  const BallName: string := "_ball_"

  datatype Series = Ball | Team46 | Team50
  datatype Colour = Red | Blue | Green

  /** One filled circle of the chart, drawn in its series' colour. */
  datatype Marker = Marker(series: Series, x: int, y: int)

  datatype Range = Range(lo: int, hi: int)

  /** One line of the chart's legend: a series' label and the colour of its circles. */
  datatype LegendEntry = LegendEntry(text: string, colour: Colour)

  /** What one call of `plot_match` draws into the image at `path`. */
  datatype Chart = Chart(
    path: string,
    width: nat,
    height: nat,
    xRange: Range,
    yRange: Range,
    markers: seq<Marker>,
    legend: seq<LegendEntry>)

  /** The playing field's box, the chart's fixed coordinate range. */
  const FieldX: Range := Range(-300000, 300000)
  const FieldY: Range := Range(-500000, 500000)

  function SeriesColour(s: Series): Colour
  {
    match s
    case Ball => Red
    case Team46 => Blue
    case Team50 => Green
  }

  function Label(s: Series): string
  {
    match s
    case Ball => "Ball"
    case Team46 => "Team 46"
    case Team50 => "Team 50"
  }

  function Entry(s: Series): LegendEntry
  {
    LegendEntry(Label(s), SeriesColour(s))
  }

  /** The filter that picks the rows of series `s`. */
  predicate InSeries(g: GameState, s: Series)
  {
    match s
    case Ball => g.playerName == BallName
    case Team46 => g.team == Some(46)
    case Team50 => g.team == Some(50)
  }

  // ---------------------------------------------------------------------------
  // Reading the rows

  /** The result of deserializing every row in order and stopping at the first bad one. */
  function ReadRecords(rows: seq<Row>): Result<seq<GameState>, string>
    decreases |rows|
  {
    if rows == [] then Ok([])
    else
      match ReadRecords(rows[..|rows| - 1])
      case Err(e) => Err(e)
      case Ok(prefix) =>
        match rows[|rows| - 1]
        case Ok(g) => Ok(prefix + [g])
        case Err(e) => Err(e)
  }

  /** Reading succeeds exactly when every row deserialized, and then yields every
      row, in file order, one per record. */
  lemma {:induction false} ReadRecordsOk(rows: seq<Row>)
    ensures ReadRecords(rows).Ok? <==> forall i :: 0 <= i < |rows| ==> rows[i].Ok?
    ensures ReadRecords(rows).Ok? ==>
      |ReadRecords(rows).value| == |rows| &&
      forall i :: 0 <= i < |rows| ==> ReadRecords(rows).value[i] == rows[i].value
    decreases |rows|
  {
    if rows != [] {
      var prefix := rows[..|rows| - 1];
      ReadRecordsOk(prefix);
      assert forall i :: 0 <= i < |prefix| ==> prefix[i] == rows[i];
    }
  }

  /** A bad row aborts the read with that row's error, if every row before it was good. */
  lemma {:induction false} ReadRecordsFirstError(rows: seq<Row>, k: nat)
    requires k < |rows| && rows[k].Err?
    requires forall j :: 0 <= j < k ==> rows[j].Ok?
    ensures ReadRecords(rows) == Err(rows[k].error)
    decreases |rows|
  {
    var prefix := rows[..|rows| - 1];
    if k == |rows| - 1 {
      ReadRecordsOk(prefix);
    } else {
      ReadRecordsFirstError(prefix, k);
    }
  }

  /** The overall outcome of `plot_csv` on a reader over the CSV file and the drawing outcome. */
  function PlotResult(reader: Result<seq<Row>, string>, draw: Outcome<string>): Result<seq<GameState>, PlotError>
  {
    match reader
    case Err(e) => Err(OpenError(e))
    case Ok(rows) =>
      match ReadRecords(rows)
      case Err(e) => Err(RowError(e))
      case Ok(data) =>
        match draw
        case Fail(e) => Err(DrawError(e))
        case Pass => Ok(data)
  }

  /** The image that `plot_csv` writes for the CSV file at `filePath`. */
  function ImagePath(filePath: string): (p: string)
    ensures |p| == |filePath| + 4 && p[..|filePath|] == filePath && p[|filePath|..] == ".png"
  {
    filePath + ".png"
  }

  /**
    `plot_csv`: collect the rows one by one, returning on the first that fails to
    deserialize; only when all are read, ask `plot_match` to draw them into the
    image next to the CSV file. `requested` is the chart handed to `plot_match`,
    `None` when it is never called; `draw` is what the drawing surface reports.
   */
  method PlotCsv(filePath: string, reader: Result<seq<Row>, string>, draw: Outcome<string>)
    returns (r: Result<seq<GameState>, PlotError>, requested: Option<Chart>)
    ensures r == PlotResult(reader, draw)
    ensures r.Ok? <==> reader.Ok? && (forall i :: 0 <= i < |reader.value| ==> reader.value[i].Ok?) && draw.Pass?
    ensures r.Ok? ==> |r.value| == |reader.value| && forall i :: 0 <= i < |r.value| ==> r.value[i] == reader.value[i].value
    ensures requested.Some? <==> reader.Ok? && forall i :: 0 <= i < |reader.value| ==> reader.value[i].Ok?
    ensures requested.Some? ==>
      reader.Ok? && ReadRecords(reader.value).Ok? &&
      requested.value == PlotMatch(ReadRecords(reader.value).value, ImagePath(filePath))
  {
    if reader.Err? {
      return Err(OpenError(reader.error)), None;
    }
    var rows := reader.value;
    ReadRecordsOk(rows);
    var data: seq<GameState> := [];
    for i := 0 to |rows|
      invariant forall j :: 0 <= j < i ==> rows[j].Ok?
      invariant ReadRecords(rows[..i]) == Ok(data)
    {
      assert rows[..i + 1][..i] == rows[..i];
      match rows[i]
      case Err(e) =>
        ReadRecordsFirstError(rows, i);
        return Err(RowError(e)), None;
      case Ok(record) =>
        data := data + [record];
    }
    assert rows[..|rows|] == rows;
    var imageName := ImagePath(filePath);
    requested := Some(PlotMatch(data, imageName));
    match draw
    case Fail(e) =>
      r := Err(DrawError(e));
    case Pass =>
      r := Ok(data);
  }

  // ---------------------------------------------------------------------------
  // Series selection

  /** The rows of series `s`, in input order (the iterator `filter`). */
  function Select(data: seq<GameState>, s: Series): (r: seq<GameState>)
    ensures |r| <= |data|
  {
    if data == [] then []
    else (if InSeries(data[0], s) then [data[0]] else []) + Select(data[1..], s)
  }

  /** One marker of series `s` at each row's (location_x, location_y) (the iterator `map`). */
  function Points(rows: seq<GameState>, s: Series): seq<Marker>
  {
    seq(|rows|, i requires 0 <= i < |rows| => Marker(s, rows[i].locationX, rows[i].locationY))
  }

  function SeriesMarkers(data: seq<GameState>, s: Series): seq<Marker>
  {
    Points(Select(data, s), s)
  }

  /** `plot_match`: the fixed 800x600 canvas over the field box, then the three series
      drawn one after another, each by its own filter. */
  function PlotMatch(data: seq<GameState>, outputFile: string): (c: Chart)
    ensures c.path == outputFile
    ensures c.xRange == Range(-300000, 300000) && c.yRange == Range(-500000, 500000)
    ensures |c.markers| == |Select(data, Ball)| + |Select(data, Team46)| + |Select(data, Team50)|
    ensures c.legend == [LegendEntry("Ball", Red), LegendEntry("Team 46", Blue), LegendEntry("Team 50", Green)]
  {
    Chart(outputFile, 800, 600, FieldX, FieldY,
          SeriesMarkers(data, Ball) + SeriesMarkers(data, Team46) + SeriesMarkers(data, Team50),
          [Entry(Ball), Entry(Team46), Entry(Team50)])
  }

  /** The markers of one series, in the order drawn. */
  function OfSeries(ms: seq<Marker>, s: Series): seq<Marker>
  {
    if ms == [] then []
    else (if ms[0].series == s then [ms[0]] else []) + OfSeries(ms[1..], s)
  }

  lemma {:induction false} SelectAppend(a: seq<GameState>, b: seq<GameState>, s: Series)
    ensures Select(a + b, s) == Select(a, s) + Select(b, s)
    decreases |a|
  {
    if a != [] {
      assert (a + b)[0] == a[0] && (a + b)[1..] == a[1..] + b;
      SelectAppend(a[1..], b, s);
    } else {
      assert a + b == b;
    }
  }

  /** The series holds every row of the series as often as the input does, and no other row. */
  lemma {:induction false} SelectCounts(data: seq<GameState>, s: Series, g: GameState)
    ensures multiset(Select(data, s))[g] == if InSeries(g, s) then multiset(data)[g] else 0
    decreases |data|
  {
    if data != [] {
      SelectCounts(data[1..], s, g);
      assert data == [data[0]] + data[1..];
    }
  }

  lemma {:induction false} OfSeriesAppend(a: seq<Marker>, b: seq<Marker>, s: Series)
    ensures OfSeries(a + b, s) == OfSeries(a, s) + OfSeries(b, s)
    decreases |a|
  {
    if a != [] {
      assert (a + b)[0] == a[0] && (a + b)[1..] == a[1..] + b;
      OfSeriesAppend(a[1..], b, s);
    } else {
      assert a + b == b;
    }
  }

  lemma {:induction false} OfSeriesPoints(rows: seq<GameState>, t: Series, s: Series)
    ensures OfSeries(Points(rows, t), s) == if s == t then Points(rows, t) else []
    decreases |rows|
  {
    if rows != [] {
      assert Points(rows, t)[1..] == Points(rows[1..], t);
      OfSeriesPoints(rows[1..], t, s);
    }
  }

  /** The filters are independent: the markers a chart shows for series `s` are
      exactly the points of the rows `s`'s own filter picks, whatever the other
      two series pick. */
  lemma ChartSeries(data: seq<GameState>, outputFile: string, s: Series)
    ensures OfSeries(PlotMatch(data, outputFile).markers, s) == Points(Select(data, s), s)
  {
    var b, t46, t50 := SeriesMarkers(data, Ball), SeriesMarkers(data, Team46), SeriesMarkers(data, Team50);
    OfSeriesAppend(b + t46, t50, s);
    OfSeriesAppend(b, t46, s);
    OfSeriesPoints(Select(data, Ball), Ball, s);
    OfSeriesPoints(Select(data, Team46), Team46, s);
    OfSeriesPoints(Select(data, Team50), Team50, s);
  }

  /** Every marker sits at the (location_x, location_y) of an input row of its series. */
  lemma MarkersFromRows(data: seq<GameState>, outputFile: string, m: Marker)
    requires m in PlotMatch(data, outputFile).markers
    ensures exists g :: g in data && InSeries(g, m.series) && m.x == g.locationX && m.y == g.locationY
  {
    var s := m.series;
    var ms := Points(Select(data, s), s);
    OfSeriesMembers(PlotMatch(data, outputFile).markers, s, m);
    var i :| 0 <= i < |ms| && ms[i] == m;
    var g := Select(data, s)[i];
    SelectCounts(data, s, g);
    assert g in multiset(Select(data, s));
  }

  lemma {:induction false} OfSeriesMembers(ms: seq<Marker>, s: Series, m: Marker)
    requires m in ms && m.series == s
    ensures m in OfSeries(ms, s)
    decreases |ms|
  {
    if ms[0] != m {
      OfSeriesMembers(ms[1..], s, m);
    }
  }

  /** Every row of a series gets a marker of that series at its (location_x, location_y). */
  lemma RowsGetMarkers(data: seq<GameState>, outputFile: string, i: nat, s: Series)
    requires i < |data| && InSeries(data[i], s)
    ensures Marker(s, data[i].locationX, data[i].locationY) in PlotMatch(data, outputFile).markers
  {
    var g := data[i];
    SelectCounts(data, s, g);
    assert g in multiset(Select(data, s));
    var k :| 0 <= k < |Select(data, s)| && Select(data, s)[k] == g;
    assert Points(Select(data, s), s)[k] == Marker(s, g.locationX, g.locationY);
  }

  /** A row that no filter picks contributes nothing to the chart. */
  lemma UnmatchedRowIgnored(a: seq<GameState>, g: GameState, b: seq<GameState>, outputFile: string)
    requires !InSeries(g, Ball) && !InSeries(g, Team46) && !InSeries(g, Team50)
    ensures PlotMatch(a + [g] + b, outputFile) == PlotMatch(a + b, outputFile)
  {
    forall s: Series ensures Select(a + [g] + b, s) == Select(a + b, s) {
      SelectAppend(a + [g], b, s);
      SelectAppend(a, [g], s);
      SelectAppend(a, b, s);
    }
  }

  /** What a row contributes to the chart: its name, its team and its (x, y); its time,
      height (location_z), rotation and velocities play no part. */
  function Drawn(g: GameState): (string, Option<U32>, int, int)
  {
    (g.playerName, g.team, g.locationX, g.locationY)
  }

  lemma {:induction false} OnlyDrawnFieldsMatter(d1: seq<GameState>, d2: seq<GameState>, outputFile: string)
    requires |d1| == |d2|
    requires forall i :: 0 <= i < |d1| ==> Drawn(d1[i]) == Drawn(d2[i])
    ensures PlotMatch(d1, outputFile) == PlotMatch(d2, outputFile)
  {
    forall s: Series ensures SeriesMarkers(d1, s) == SeriesMarkers(d2, s) {
      SameMarkers(d1, d2, s);
    }
  }

  lemma PointsAppend(a: seq<GameState>, b: seq<GameState>, s: Series)
    ensures Points(a + b, s) == Points(a, s) + Points(b, s)
  {
    assert forall i :: 0 <= i < |a| ==> (a + b)[i] == a[i];
    assert forall i :: |a| <= i < |a| + |b| ==> (a + b)[i] == b[i - |a|];
  }

  lemma {:induction false} SameMarkers(d1: seq<GameState>, d2: seq<GameState>, s: Series)
    requires |d1| == |d2|
    requires forall i :: 0 <= i < |d1| ==> Drawn(d1[i]) == Drawn(d2[i])
    ensures SeriesMarkers(d1, s) == SeriesMarkers(d2, s)
    decreases |d1|
  {
    if d1 != [] {
      var g1, g2 := d1[0], d2[0];
      assert Drawn(g1) == Drawn(g2);
      assert InSeries(g1, s) == InSeries(g2, s);
      var h1 := if InSeries(g1, s) then [g1] else [];
      var h2 := if InSeries(g2, s) then [g2] else [];
      assert Points(h1, s) == Points(h2, s);
      SameMarkers(d1[1..], d2[1..], s);
      PointsAppend(h1, Select(d1[1..], s), s);
      PointsAppend(h2, Select(d2[1..], s), s);
    }
  }

  // ---------------------------------------------------------------------------
  // The filters against a first-match classification

  /** A first-match classification: the ball first, else team 46, else team 50. */
  function Classify(g: GameState): Option<Series>
  {
    if g.playerName == BallName then Some(Ball)
    else if g.team == Some(46) then Some(Team46)
    else if g.team == Some(50) then Some(Team50)
    else None
  }

  /** A frame row as the frame log produces it: a non-empty name, and no team exactly for the ball. */
  predicate WellFormed(g: GameState)
  {
    g.playerName != [] && (g.team.None? <==> g.playerName == BallName)
  }

  /** On well-formed rows the three independent filters pick the same rows as the
      first-match classification, so every such row is in at most one series. */
  lemma FiltersAgreeWithClassify(g: GameState, s: Series)
    requires WellFormed(g)
    ensures InSeries(g, s) <==> Classify(g) == Some(s)
  {
  }

  /** The filters are not an else-chain: a ball row that carries team 46 is drawn twice,
      once as the ball and once for team 46. */
  lemma BallWithTeamDrawnTwice(g: GameState, outputFile: string)
    requires g.playerName == BallName && g.team == Some(46)
    ensures PlotMatch([g], outputFile).markers ==
      [Marker(Ball, g.locationX, g.locationY), Marker(Team46, g.locationX, g.locationY)]
    ensures Classify(g) == Some(Ball)
  {
    assert Select([g], Ball) == [g] && Select([g], Team46) == [g] && Select([g], Team50) == [];
  }

  /** A team-46 player at (1, 2) and the ball at (0, 0) give one ball marker at (0, 0),
      one team-46 marker at (1, 2) and no team-50 marker. */
  lemma TwoRowExample(alice: GameState, ball: GameState, outputFile: string)
    requires alice.team == Some(46) && alice.playerName == "Alice" && alice.locationX == 1 && alice.locationY == 2
    requires ball.team == None && ball.playerName == BallName && ball.locationX == 0 && ball.locationY == 0
    ensures PlotMatch([alice, ball], outputFile).markers == [Marker(Ball, 0, 0), Marker(Team46, 1, 2)]
  {
    assert alice.playerName != BallName;
    assert Select([alice, ball], Ball) == [ball];
    assert Select([alice, ball], Team46) == [alice];
    assert Select([alice, ball], Team50) == [];
  }
}
