/**
 The v2 feature engineer. Its columns are built by index arithmetic on flattened arrays;
 here they are tied to a plain statement about each series' timeline: the row of series `s`
 and target day `T` holds the value `k` days before `T` for every lag `k`, and the mean and
 deviation of the `w` days ending 28 days before `T`. Whenever the guards let a frame be
 built, no input reads a day of the fold being predicted.
 */
module FeatureEngineer {
  import opened Frames
  import opened OutlierHandler
  import opened Statistics

  const LAG_OFFSETS: seq<nat> := [28, 56, 91, 182, 364]
  const ROLLING_WINDOWS: seq<nat> := [7, 28, 56, 91]
  const ROLLING_LAG: nat := 28
  const CATEGORICAL_FIELDS: seq<string> := ["cat_id", "dept_id", "store_id", "state_id", "item_id"]

  function Largest(s: seq<nat>): nat {
    if s == [] then 0
    else
      var m := Largest(s[1..]);
      if s[0] >= m then s[0] else m
  }

  /** `max_lookback`. */
  function MaxLookback(): nat {
    var windowed := Largest(ROLLING_WINDOWS) + ROLLING_LAG;
    if Largest(LAG_OFFSETS) >= windowed then Largest(LAG_OFFSETS) else windowed
  }

  lemma MaxLookbackIs364()
    ensures MaxLookback() == 364
  {
    assert Largest([364]) == 364;
    assert LAG_OFFSETS[1..][1..][1..][1..] == [364];
    assert Largest(LAG_OFFSETS[1..][1..]) == 364;
    assert Largest([91]) == 91;
    assert ROLLING_WINDOWS[1..][1..][1..] == [91];
    assert Largest(ROLLING_WINDOWS[1..][1..]) == 91;
    assert Largest(ROLLING_WINDOWS[1..]) == 91;
  }

  // ---------------------------------------------------------------------------
  // Frames
  // ---------------------------------------------------------------------------

  /** The columns of a long frame; lags, windows and codes in the order of their constants. */
  datatype Frame = Frame(
    seriesId: seq<string>, y: seq<real>, dayOfWeek: seq<int>, isWeekend: seq<int>,
    lags: seq<seq<real>>, means: seq<seq<real>>, stds: seq<seq<real>>, codes: seq<seq<nat>>)

  /** What the model sees of a row: every feature column, neither the id nor the target. */
  datatype Inputs = Inputs(lags: seq<real>, means: seq<real>, stds: seq<real>, dayOfWeek: int, isWeekend: int,
    codes: seq<nat>)

  /** All columns have `size` entries, as a data frame demands. */
  predicate WellFormed(f: Frame, size: nat) {
    && |f.seriesId| == |f.y| == |f.dayOfWeek| == |f.isWeekend| == size
    && (forall i | 0 <= i < |f.lags| :: |f.lags[i]| == size)
    && (forall i | 0 <= i < |f.means| :: |f.means[i]| == size)
    && (forall i | 0 <= i < |f.stds| :: |f.stds[i]| == size)
    && (forall i | 0 <= i < |f.codes| :: |f.codes[i]| == size)
  }

  function Across<T>(columns: seq<seq<T>>, r: nat): (row: seq<T>)
    requires forall i | 0 <= i < |columns| :: r < |columns[i]|
    ensures |row| == |columns|
  {
    seq(|columns|, i requires 0 <= i < |columns| => columns[i][r])
  }

  function InputsAt(f: Frame, size: nat, r: nat): Inputs
    requires WellFormed(f, size) && r < size
  {
    Inputs(Across(f.lags, r), Across(f.means, r), Across(f.stds, r), f.dayOfWeek[r], f.isWeekend[r], Across(f.codes, r))
  }

  // ---------------------------------------------------------------------------
  // What a row should hold
  // ---------------------------------------------------------------------------

  /** The `w` days that end `ROLLING_LAG` days before day `t`. */
  function Window(timeline: seq<real>, t: nat, w: nat): (days: seq<real>)
    requires w + ROLLING_LAG <= t + 1 && t < |timeline| + ROLLING_LAG
    ensures |days| == w
  {
    timeline[t - ROLLING_LAG - w + 1..t - ROLLING_LAG + 1]
  }

  predicate LookbackFits(t: nat) {
    && (forall i | 0 <= i < |LAG_OFFSETS| :: LAG_OFFSETS[i] <= t)
    && (forall i | 0 <= i < |ROLLING_WINDOWS| :: ROLLING_WINDOWS[i] + ROLLING_LAG <= t + 1)
  }

  /** The inputs for day `t`, as far as they come from the series' past. */
  function ExpectedInputs(timeline: seq<real>, t: nat, dow: int, codes: seq<nat>, sqrt: SquareRoot): Inputs
    requires LookbackFits(t) && t < |timeline|
  {
    Inputs(
      seq(|LAG_OFFSETS|, i requires 0 <= i < |LAG_OFFSETS| => timeline[t - LAG_OFFSETS[i]]),
      seq(|ROLLING_WINDOWS|, i requires 0 <= i < |ROLLING_WINDOWS| => Mean(Window(timeline, t, ROLLING_WINDOWS[i]))),
      seq(|ROLLING_WINDOWS|, i requires 0 <= i < |ROLLING_WINDOWS| =>
        Std(Window(timeline, t, ROLLING_WINDOWS[i]), sqrt)),
      dow, if dow >= 5 then 1 else 0, codes)
  }

  lemma LookbackFrom364(t: nat)
    requires t >= 364
    ensures LookbackFits(t)
  {
  }

  /** The inputs one by one: five lags, and mean and deviation of four windows that end 28 days before. */
  lemma InputsAre(timeline: seq<real>, t: nat, dow: int, codes: seq<nat>, sqrt: SquareRoot)
    requires 364 <= t < |timeline|
    ensures LookbackFits(t)
    ensures
      var x := ExpectedInputs(timeline, t, dow, codes, sqrt);
      && x.lags
         == [timeline[t - 28], timeline[t - 56], timeline[t - 91], timeline[t - 182], timeline[t - 364]]
      && x.means
         == [Mean(timeline[t - 34..t - 27]), Mean(timeline[t - 55..t - 27]), Mean(timeline[t - 83..t - 27]),
             Mean(timeline[t - 118..t - 27])]
      && x.stds
         == [Std(timeline[t - 34..t - 27], sqrt), Std(timeline[t - 55..t - 27], sqrt),
             Std(timeline[t - 83..t - 27], sqrt), Std(timeline[t - 118..t - 27], sqrt)]
      && x.dayOfWeek == dow && (x.isWeekend == 1 <==> dow >= 5) && (x.isWeekend == 0 <==> dow < 5)
      && x.codes == codes
  {
    LookbackFrom364(t);
  }

  /** The inputs of day `t` are determined by the days up to `t - 28`. */
  lemma OldDaysDecide(a: seq<real>, b: seq<real>, t: nat, dow: int, codes: seq<nat>, sqrt: SquareRoot)
    requires LookbackFits(t) && ROLLING_LAG <= t < |a| && t < |b|
    requires a[..t - ROLLING_LAG + 1] == b[..t - ROLLING_LAG + 1]
    ensures ExpectedInputs(a, t, dow, codes, sqrt) == ExpectedInputs(b, t, dow, codes, sqrt)
  {
    forall i | 0 <= i < |LAG_OFFSETS| ensures a[t - LAG_OFFSETS[i]] == b[t - LAG_OFFSETS[i]] {
      assert a[..t - ROLLING_LAG + 1][t - LAG_OFFSETS[i]] == b[..t - ROLLING_LAG + 1][t - LAG_OFFSETS[i]];
    }
    forall i | 0 <= i < |ROLLING_WINDOWS|
      ensures Window(a, t, ROLLING_WINDOWS[i]) == Window(b, t, ROLLING_WINDOWS[i])
    {
      var w := ROLLING_WINDOWS[i];
      assert Window(a, t, w) == a[..t - ROLLING_LAG + 1][t - ROLLING_LAG - w + 1..];
      assert Window(b, t, w) == b[..t - ROLLING_LAG + 1][t - ROLLING_LAG - w + 1..];
    }
  }

  // ---------------------------------------------------------------------------
  // Categorical codes
  // ---------------------------------------------------------------------------

  /** The distinct values in order of first appearance. */
  function FirstSeen(values: seq<string>): seq<string> {
    if values == [] then []
    else
      var before, last := FirstSeen(values[..|values| - 1]), values[|values| - 1];
      if last in before then before else before + [last]
  }

  lemma {:induction false} FirstSeenFacts(values: seq<string>)
    ensures forall v :: v in FirstSeen(values) <==> v in values
    ensures forall i, j | 0 <= i < j < |FirstSeen(values)| :: FirstSeen(values)[i] != FirstSeen(values)[j]
  {
    if values != [] {
      FirstSeenFacts(values[..|values| - 1]);
      assert values == values[..|values| - 1] + [values[|values| - 1]];
    }
  }

  function PositionOf(seen: seq<string>, v: string): (c: nat)
    requires v in seen
    ensures c < |seen| && seen[c] == v
  {
    if seen[0] == v then 0 else 1 + PositionOf(seen[1..], v)
  }

  function CodesOf(values: seq<string>): (codes: seq<nat>)
    ensures |codes| == |values|
    ensures forall i | 0 <= i < |values| :: codes[i] < |FirstSeen(values)| && FirstSeen(values)[codes[i]] == values[i]
  {
    FirstSeenFacts(values);
    seq(|values|, i requires 0 <= i < |values| => PositionOf(FirstSeen(values), values[i]))
  }

  lemma {:induction false} FirstSeenGrows(values: seq<string>, n: nat)
    requires n <= |values|
    ensures FirstSeen(values[..n]) <= FirstSeen(values)
    decreases |values|
  {
    if n == |values| {
      assert values[..n] == values;
    } else {
      var shorter := values[..|values| - 1];
      assert shorter[..n] == values[..n];
      FirstSeenGrows(shorter, n);
    }
  }

  /** The index dictionary numbers the values seen so far. */
  ghost predicate Numbers(index: map<string, nat>, seen: seq<string>) {
    && |index| == |seen|
    && (forall v :: v in index <==> v in seen)
    && (forall c | 0 <= c < |seen| :: seen[c] in index && index[seen[c]] == c)
  }

  lemma NumbersStep(index: map<string, nat>, values: seq<string>, k: nat)
    requires k < |values| && Numbers(index, FirstSeen(values[..k]))
    ensures Numbers(if values[k] in index then index else index[values[k] := |index|], FirstSeen(values[..k + 1]))
  {
    assert values[..k + 1][..k] == values[..k];
    var before := FirstSeen(values[..k]);
    assert FirstSeen(values[..k + 1]) == if values[k] in before then before else before + [values[k]];
  }

  lemma CodeOfSeen(index: map<string, nat>, values: seq<string>, k: nat)
    requires k < |values| && Numbers(index, FirstSeen(values[..k + 1]))
    ensures values[k] in index && index[values[k]] == CodesOf(values)[k]
  {
    var seen := FirstSeen(values[..k + 1]);
    FirstSeenFacts(values[..k + 1]);
    FirstSeenFacts(values);
    assert values[..k + 1][k] == values[k];
    assert values[k] in seen;
    var c :| 0 <= c < |seen| && seen[c] == values[k];
    FirstSeenGrows(values, k + 1);
    assert FirstSeen(values)[c] == FirstSeen(values)[CodesOf(values)[k]];
  }

  /** `_encode_categorical`. */
  method EncodeCategorical(values: seq<string>) returns (codes: seq<nat>, index: map<string, nat>)
    ensures codes == CodesOf(values)
    ensures Numbers(index, FirstSeen(values))
  {
    index, codes := map[], [];
    for k := 0 to |values|
      invariant Numbers(index, FirstSeen(values[..k]))
      invariant codes == CodesOf(values)[..k]
    {
      NumbersStep(index, values, k);
      if values[k] !in index {
        index := index[values[k] := |index|];
      }
      CodeOfSeen(index, values, k);
      codes := codes + [index[values[k]]];
    }
    assert values[..|values|] == values;
  }

  /** Codes are equal exactly when values are, and no code below the largest is left out. */
  lemma CodesAreFaithful(values: seq<string>)
    ensures forall i, j | 0 <= i < |values| && 0 <= j < |values| ::
      CodesOf(values)[i] == CodesOf(values)[j] <==> values[i] == values[j]
    ensures forall c: nat :: c < |FirstSeen(values)| <==> c in CodesOf(values)
  {
    var codes, seen := CodesOf(values), FirstSeen(values);
    FirstSeenFacts(values);
    forall c: nat | c < |seen| ensures c in codes {
      assert seen[c] in values;
      var i :| 0 <= i < |values| && values[i] == seen[c];
      assert seen[codes[i]] == seen[c];
    }
  }

  // ---------------------------------------------------------------------------
  // Building the columns
  // ---------------------------------------------------------------------------

  /** `history[:, h - k : h - k + d]`, flattened. */
  function LagColumn(rows: seq<seq<real>>, h: nat, k: nat, d: nat): (column: seq<real>)
    requires Wide(rows, h) && k <= h && d <= k
    ensures |column| == |rows| * d
  {
    Flatten(seq(|rows|, s requires 0 <= s < |rows| => rows[s][h - k..h - k + d]), d)
  }

  predicate WindowFits(h: nat, w: nat, d: nat) {
    1 <= w && w + ROLLING_LAG <= h + 1 && d <= ROLLING_LAG
  }

  /** The gathered window of one series and day: columns `h - 28 + j - w + 1` to `h - 28 + j`. */
  function Gathered(row: seq<real>, h: nat, w: nat, d: nat, j: nat): (days: seq<real>)
    requires |row| == h && WindowFits(h, w, d) && j < d
    ensures |days| == w
  {
    seq(w, x requires 0 <= x < w => row[h - ROLLING_LAG + j + (x - w + 1)])
  }

  function MeanColumn(rows: seq<seq<real>>, h: nat, w: nat, d: nat): (column: seq<real>)
    requires Wide(rows, h) && WindowFits(h, w, d)
    ensures |column| == |rows| * d
  {
    Flatten(seq(|rows|, s requires 0 <= s < |rows| =>
              seq(d, j requires 0 <= j < d => Mean(Gathered(rows[s], h, w, d, j)))), d)
  }

  function StdColumn(rows: seq<seq<real>>, h: nat, w: nat, d: nat, sqrt: SquareRoot): (column: seq<real>)
    requires Wide(rows, h) && WindowFits(h, w, d)
    ensures |column| == |rows| * d
  {
    Flatten(seq(|rows|, s requires 0 <= s < |rows| =>
              seq(d, j requires 0 <= j < d => Std(Gathered(rows[s], h, w, d, j), sqrt))), d)
  }

  /** What `_long_frame` is given: arrays with a row per series. */
  predicate FrameArgs(seriesIds: seq<string>, target: Matrix, history: Matrix, dow: seq<int>, codes: seq<seq<nat>>) {
    && target.Grid? && history.Grid? && Rectangular(target) && Rectangular(history)
    && |target.rows| == |history.rows| == |seriesIds| && |dow| == target.width
    && forall i | 0 <= i < |codes| :: |codes[i]| == |seriesIds|
  }

  /** The guards of the lag loop let every offset through. */
  predicate GuardsPass(h: nat, d: nat) {
    forall i | 0 <= i < |LAG_OFFSETS| :: LAG_OFFSETS[i] <= h && d <= LAG_OFFSETS[i]
  }

  lemma GuardsPassIff(h: nat, d: nat)
    ensures GuardsPass(h, d) <==> h >= 364 && d <= 28
  {
    if GuardsPass(h, d) {
      assert LAG_OFFSETS[0] == 28 && LAG_OFFSETS[4] == 364;
    }
  }

  function LagColumnsOf(rows: seq<seq<real>>, h: nat, d: nat): seq<seq<real>>
    requires Wide(rows, h) && GuardsPass(h, d)
  {
    seq(|LAG_OFFSETS|, i requires 0 <= i < |LAG_OFFSETS| => LagColumn(rows, h, LAG_OFFSETS[i], d))
  }

  function LongColumns(seriesIds: seq<string>, target: Matrix, history: Matrix, dow: seq<int>, codes: seq<seq<nat>>,
            sqrt: SquareRoot): Frame
    requires FrameArgs(seriesIds, target, history, dow, codes)
    requires history.width >= 364 && target.width <= 28
  {
    var n, d, h := |seriesIds|, target.width, history.width;
    var tiled := Tile(dow, n);
    Frame(Repeat(seriesIds, d), Flatten(target.rows, d), tiled,
          seq(|tiled|, r requires 0 <= r < |tiled| => if tiled[r] >= 5 then 1 else 0),
          seq(|LAG_OFFSETS|, i requires 0 <= i < |LAG_OFFSETS| => LagColumn(history.rows, h, LAG_OFFSETS[i], d)),
          seq(|ROLLING_WINDOWS|, i requires 0 <= i < |ROLLING_WINDOWS| =>
            MeanColumn(history.rows, h, ROLLING_WINDOWS[i], d)),
          seq(|ROLLING_WINDOWS|, i requires 0 <= i < |ROLLING_WINDOWS| =>
            StdColumn(history.rows, h, ROLLING_WINDOWS[i], d, sqrt)),
          seq(|codes|, i requires 0 <= i < |codes| => Repeat(codes[i], d)))
  }

  /** The lag loop of `_long_frame`, with its guard. */
  method LagColumns(history: Matrix, d: nat) returns (r: Result<seq<seq<real>>>)
    requires history.Grid? && Rectangular(history)
    ensures r == Err(LagOutOfBounds) <==> !GuardsPass(history.width, d)
    ensures r.Ok? <==> GuardsPass(history.width, d)
    ensures r.Ok? ==> r.value == LagColumnsOf(history.rows, history.width, d)
  {
    var columns: seq<seq<real>> := [];
    var h := history.width;
    for i := 0 to |LAG_OFFSETS|
      invariant |columns| == i
      invariant forall x | 0 <= x < i :: LAG_OFFSETS[x] <= h && d <= LAG_OFFSETS[x]
      invariant forall x | 0 <= x < i :: columns[x] == LagColumn(history.rows, h, LAG_OFFSETS[x], d)
    {
      var k := LAG_OFFSETS[i];
      if h - k + d - 1 >= h || h - k < 0 {
        return Err(LagOutOfBounds);
      }
      columns := columns + [LagColumn(history.rows, h, k, d)];
    }
    r := Ok(columns);
  }

  /** `_long_frame`. */
  method LongFrame(seriesIds: seq<string>, target: Matrix, history: Matrix, dow: seq<int>, codes: seq<seq<nat>>,
            sqrt: SquareRoot)
    returns (r: Result<Frame>)
    requires FrameArgs(seriesIds, target, history, dow, codes)
    ensures r == Err(LagOutOfBounds) <==> history.width < 364 || target.width > 28
    ensures r.Ok? <==> history.width >= 364 && target.width <= 28
    ensures r.Ok? ==> r.value == LongColumns(seriesIds, target, history, dow, codes, sqrt)
  {
    var n, d, h := |seriesIds|, target.width, history.width;
    GuardsPassIff(h, d);
    var lags := LagColumns(history, d);
    if lags.Err? {
      return Err(lags.error);
    }
    var means: seq<seq<real>> := [];
    var stds: seq<seq<real>> := [];
    for i := 0 to |ROLLING_WINDOWS|
      invariant |means| == |stds| == i
      invariant forall x | 0 <= x < i :: means[x] == MeanColumn(history.rows, h, ROLLING_WINDOWS[x], d)
      invariant forall x | 0 <= x < i :: stds[x] == StdColumn(history.rows, h, ROLLING_WINDOWS[x], d, sqrt)
    {
      var w := ROLLING_WINDOWS[i];
      means := means + [MeanColumn(history.rows, h, w, d)];
      stds := stds + [StdColumn(history.rows, h, w, d, sqrt)];
    }
    var codeColumns: seq<seq<nat>> := [];
    for i := 0 to |codes|
      invariant |codeColumns| == i
      invariant forall x | 0 <= x < i :: codeColumns[x] == Repeat(codes[x], d)
    {
      codeColumns := codeColumns + [Repeat(codes[i], d)];
    }
    var tiled := Tile(dow, n);
    var weekend := seq(|tiled|, r requires 0 <= r < |tiled| => if tiled[r] >= 5 then 1 else 0);
    r := Ok(Frame(Repeat(seriesIds, d), Flatten(target.rows, d), tiled, weekend, lags.value, means, stds, codeColumns));
    assert r.value == LongColumns(seriesIds, target, history, dow, codes, sqrt);
  }

  // ---------------------------------------------------------------------------
  // Rows mean what they should
  // ---------------------------------------------------------------------------

  lemma LagAt(rows: seq<seq<real>>, h: nat, k: nat, d: nat, s: nat, j: nat, timeline: seq<real>)
    requires Wide(rows, h) && k <= h && d <= k && s < |rows| && j < d
    requires rows[s] <= timeline
    ensures s * d + j < |LagColumn(rows, h, k, d)|
    ensures LagColumn(rows, h, k, d)[s * d + j] == timeline[h + j - k]
  {
    FlattenAt(seq(|rows|, x requires 0 <= x < |rows| => rows[x][h - k..h - k + d]), d, s, j);
  }

  lemma WindowAt(rows: seq<seq<real>>, h: nat, w: nat, d: nat, s: nat, j: nat, timeline: seq<real>, sqrt: SquareRoot)
    requires Wide(rows, h) && WindowFits(h, w, d) && s < |rows| && j < d
    requires rows[s] <= timeline
    ensures s * d + j < |MeanColumn(rows, h, w, d)| == |StdColumn(rows, h, w, d, sqrt)|
    ensures MeanColumn(rows, h, w, d)[s * d + j] == Mean(Window(timeline, h + j, w))
    ensures StdColumn(rows, h, w, d, sqrt)[s * d + j] == Std(Window(timeline, h + j, w), sqrt)
  {
    assert Gathered(rows[s], h, w, d, j) == Window(timeline, h + j, w);
    FlattenAt(seq(|rows|, x requires 0 <= x < |rows| =>
                seq(d, y requires 0 <= y < d => Mean(Gathered(rows[x], h, w, d, y)))), d, s, j);
    FlattenAt(seq(|rows|, x requires 0 <= x < |rows| =>
                seq(d, y requires 0 <= y < d => Std(Gathered(rows[x], h, w, d, y), sqrt))), d, s, j);
  }

  lemma LongColumnsWellFormed(seriesIds: seq<string>, target: Matrix, history: Matrix, dow: seq<int>,
            codes: seq<seq<nat>>, sqrt: SquareRoot)
    requires FrameArgs(seriesIds, target, history, dow, codes)
    requires history.width >= 364 && target.width <= 28
    ensures WellFormed(LongColumns(seriesIds, target, history, dow, codes, sqrt), |seriesIds| * target.width)
  {
  }

  function CodesAt(codes: seq<seq<nat>>, s: nat): (r: seq<nat>)
    requires forall i | 0 <= i < |codes| :: s < |codes[i]|
    ensures |r| == |codes|
  {
    Across(codes, s)
  }

  /** The columns that look back, at the entry of series `s`, day `j`. */
  lemma LookbackColumns(rows: seq<seq<real>>, h: nat, d: nat, s: nat, j: nat, timeline: seq<real>, sqrt: SquareRoot)
    requires Wide(rows, h) && h >= 364 && d <= 28 && s < |rows| && j < d
    requires rows[s] <= timeline && h + j < |timeline|
    ensures LookbackFits(h + j) && 0 <= s * d + j < |rows| * d
    ensures forall i | 0 <= i < |LAG_OFFSETS| ::
      LagColumn(rows, h, LAG_OFFSETS[i], d)[s * d + j] == timeline[h + j - LAG_OFFSETS[i]]
    ensures forall i | 0 <= i < |ROLLING_WINDOWS| ::
      && MeanColumn(rows, h, ROLLING_WINDOWS[i], d)[s * d + j] == Mean(Window(timeline, h + j, ROLLING_WINDOWS[i]))
      && StdColumn(rows, h, ROLLING_WINDOWS[i], d, sqrt)[s * d + j]
         == Std(Window(timeline, h + j, ROLLING_WINDOWS[i]), sqrt)
  {
    LookbackFrom364(h + j);
    InRange(s, j, |rows|, d);
    forall i | 0 <= i < |LAG_OFFSETS|
      ensures LagColumn(rows, h, LAG_OFFSETS[i], d)[s * d + j] == timeline[h + j - LAG_OFFSETS[i]]
    {
      LagAt(rows, h, LAG_OFFSETS[i], d, s, j, timeline);
    }
    forall i | 0 <= i < |ROLLING_WINDOWS|
      ensures MeanColumn(rows, h, ROLLING_WINDOWS[i], d)[s * d + j] == Mean(Window(timeline, h + j, ROLLING_WINDOWS[i]))
      ensures StdColumn(rows, h, ROLLING_WINDOWS[i], d, sqrt)[s * d + j]
         == Std(Window(timeline, h + j, ROLLING_WINDOWS[i]), sqrt)
    {
      WindowAt(rows, h, ROLLING_WINDOWS[i], d, s, j, timeline, sqrt);
    }
  }

  /** Every column of the frame agrees that entry `s * d + j` is series `s`, day `j`. */
  lemma RowIsSeriesAndDay(seriesIds: seq<string>, target: Matrix, history: Matrix, dow: seq<int>,
            codes: seq<seq<nat>>, sqrt: SquareRoot,
                          s: nat, j: nat)
    requires FrameArgs(seriesIds, target, history, dow, codes)
    requires history.width >= 364 && target.width <= 28
    requires s < |seriesIds| && j < target.width
    ensures
      var f := LongColumns(seriesIds, target, history, dow, codes, sqrt);
      var d, r := target.width, s * target.width + j;
      && LookbackFits(history.width + j) && WellFormed(f, |seriesIds| * d) && 0 <= r < |seriesIds| * d
      && f.seriesId[r] == seriesIds[s] && f.y[r] == target.rows[s][j]
      && InputsAt(f, |seriesIds| * d, r)
         == ExpectedInputs(history.rows[s] + target.rows[s], history.width + j, dow[j], CodesAt(codes, s), sqrt)
  {
    var n, d, h := |seriesIds|, target.width, history.width;
    var f, timeline := LongColumns(seriesIds, target, history, dow, codes, sqrt), history.rows[s] + target.rows[s];
    var r := s * d + j;
    LookbackColumns(history.rows, h, d, s, j, timeline, sqrt);
    LongColumnsWellFormed(seriesIds, target, history, dow, codes, sqrt);
    RepeatAt(seriesIds, d, s, j);
    FlattenAt(target.rows, d, s, j);
    TileAt(dow, n, s, j);
    forall i | 0 <= i < |codes| ensures f.codes[i][r] == codes[i][s] {
      RepeatAt(codes[i], d, s, j);
    }
    var expected := ExpectedInputs(timeline, h + j, dow[j], CodesAt(codes, s), sqrt);
    var got := InputsAt(f, n * d, r);
    assert got.lags == expected.lags;
    assert got.means == expected.means;
    assert got.stds == expected.stds;
    assert got.codes == expected.codes;
  }
}
