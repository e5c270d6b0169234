/**
 The forecast pipeline end to end: load, clean, engineer, fit, predict. Training and the
 booster are arbitrary functions of the inputs they are given, and training may fail.
 Forecast cell `(s, j)` is the booster's value, cut at zero, for series `s` on test day `j`,
 and no held-out day can influence any forecast.
 */
module ForecastPipeline {
  import opened DataLoader
  import opened FeatureEngineer
  import opened Frames
  import opened OutlierHandler
  import opened SeriesData
  import opened StableSort
  import opened Statistics
  import opened Text

  // ---------------------------------------------------------------------------
  // engineer
  // ---------------------------------------------------------------------------

  function AllCodes(metadata: seq<Metadata>): (codes: seq<seq<nat>>)
    ensures forall i | 0 <= i < |codes| :: |codes[i]| == |metadata|
  {
    seq(|CATEGORICAL_FIELDS|, i requires 0 <= i < |CATEGORICAL_FIELDS| =>
      CodesOf(FieldValues(metadata, CATEGORICAL_FIELDS[i])))
  }

  method EncodeFields(metadata: seq<Metadata>) returns (codes: seq<seq<nat>>)
    ensures codes == AllCodes(metadata)
  {
    codes := [];
    for i := 0 to |CATEGORICAL_FIELDS|
      invariant |codes| == i
      invariant forall x | 0 <= x < i :: codes[x] == CodesOf(FieldValues(metadata, CATEGORICAL_FIELDS[x]))
    {
      var values := FieldValues(metadata, CATEGORICAL_FIELDS[i]);
      var fieldCodes, _ := EncodeCategorical(values);
      codes := codes + [fieldCodes];
    }
  }

  /** `np.concatenate([a, b], axis=1)`. */
  function Beside(a: Matrix, b: Matrix): (m: Matrix)
    requires a.Grid? && b.Grid? && Rectangular(a) && Rectangular(b) && |a.rows| == |b.rows|
    ensures m.Grid? && Rectangular(m) && |m.rows| == |a.rows| && m.width == a.width + b.width
  {
    Grid(a.width + b.width, seq(|a.rows|, i requires 0 <= i < |a.rows| => a.rows[i] + b.rows[i]))
  }

  datatype Engineered = Engineered(seriesIds: seq<string>, train: Frame, test: Frame)

  /** The inputs for which the v2 engineer builds its frames. */
  predicate Usable(raw: Raw, fold: Fold) {
    && Aligned(raw, fold) && raw.train.Grid?
    && |fold.validation| == |fold.test| && |fold.train| >= 364 && |fold.test| <= 28
  }

  function EngineeredFrames(raw: Raw, fold: Fold, sqrt: SquareRoot): Engineered
    requires Usable(raw, fold)
  {
    var codes := AllCodes(raw.metadata);
    Engineered(raw.seriesIds,
               LongColumns(raw.seriesIds, raw.validation, raw.train, raw.valDow, codes, sqrt),
               LongColumns(raw.seriesIds, raw.test, Beside(raw.train, raw.validation), raw.testDow, codes, sqrt))
  }

  /** What the engineer raises on inputs it refuses, in the order of its checks. */
  predicate EngineerError(raw: Raw, fold: Fold, error: Error) {
    if |fold.validation| != |fold.test| then error == FoldsDiffer
    else if raw.train.NoRows1D? then error == OneDimensional
    else if |fold.train| < 364 then error == TrainTooShort
    else error == LagOutOfBounds
  }

  /** `engineer`: which inputs it refuses, with which error, and what it builds from the others. */
  method Engineer(raw: Raw, fold: Fold, sqrt: SquareRoot) returns (r: Result<Engineered>)
    requires Aligned(raw, fold)
    ensures r.Ok? <==> Usable(raw, fold)
    ensures r.Err? ==> EngineerError(raw, fold, r.error)
    ensures r.Ok? ==> r.value == EngineeredFrames(raw, fold, sqrt)
  {
    if |fold.validation| != |fold.test| {
      return Err(FoldsDiffer);
    }
    if raw.train.NoRows1D? {
      return Err(OneDimensional);
    }
    MaxLookbackIs364();
    if raw.train.width < MaxLookback() {
      return Err(TrainTooShort);
    }
    var testHistory := Beside(raw.train, raw.validation);
    var codes := EncodeFields(raw.metadata);
    var train := LongFrame(raw.seriesIds, raw.validation, raw.train, raw.valDow, codes, sqrt);
    if train.Err? {
      return Err(LagOutOfBounds);
    }
    var test := LongFrame(raw.seriesIds, raw.test, testHistory, raw.testDow, codes, sqrt);
    if test.Err? {
      return Err(LagOutOfBounds);
    }
    r := Ok(Engineered(raw.seriesIds, train.value, test.value));
  }

  // ---------------------------------------------------------------------------
  // What the rows of the two frames say
  // ---------------------------------------------------------------------------

  function SeriesCodes(raw: Raw, s: nat): seq<nat>
    requires s < |raw.metadata|
  {
    CodesAt(AllCodes(raw.metadata), s)
  }

  /** The value of a metadata field, empty if it is not there. */
  function FieldOf(m: Metadata, field: string): string {
    if field in m then m[field] else ""
  }

  lemma SameCodeIff(raw: Raw, s: nat, t: nat, i: nat)
    requires s < |raw.metadata| && t < |raw.metadata| && i < |CATEGORICAL_FIELDS|
    ensures |SeriesCodes(raw, s)| == |SeriesCodes(raw, t)| == |CATEGORICAL_FIELDS|
    ensures SeriesCodes(raw, s)[i] == SeriesCodes(raw, t)[i] <==>
      FieldOf(raw.metadata[s], CATEGORICAL_FIELDS[i]) == FieldOf(raw.metadata[t], CATEGORICAL_FIELDS[i])
  {
    CodesAreFaithful(FieldValues(raw.metadata, CATEGORICAL_FIELDS[i]));
  }

  /** Two series have the same codes exactly if they agree in the five category fields. */
  lemma SameCodesIff(raw: Raw, s: nat, t: nat)
    requires s < |raw.metadata| && t < |raw.metadata|
    ensures var m, n := raw.metadata[s], raw.metadata[t];
      SeriesCodes(raw, s) == SeriesCodes(raw, t) <==>
        && FieldOf(m, "cat_id") == FieldOf(n, "cat_id") && FieldOf(m, "dept_id") == FieldOf(n, "dept_id")
        && FieldOf(m, "store_id") == FieldOf(n, "store_id") && FieldOf(m, "state_id") == FieldOf(n, "state_id")
        && FieldOf(m, "item_id") == FieldOf(n, "item_id")
  {
    SameCodeIff(raw, s, t, 0);
    SameCodeIff(raw, s, t, 1);
    SameCodeIff(raw, s, t, 2);
    SameCodeIff(raw, s, t, 3);
    SameCodeIff(raw, s, t, 4);
    FiveEqual(SeriesCodes(raw, s), SeriesCodes(raw, t));
  }

  lemma FiveEqual(x: seq<nat>, y: seq<nat>)
    requires |x| == |y| == 5
    ensures x == y <==> x[0] == y[0] && x[1] == y[1] && x[2] == y[2] && x[3] == y[3] && x[4] == y[4]
  {
  }

  /** The inputs of series `s` for the day `t` of its timeline. */
  function InputsOn(raw: Raw, fold: Fold, s: nat, t: nat, dow: int, sqrt: SquareRoot): Inputs
    requires Usable(raw, fold) && s < |raw.seriesIds|
    requires 364 <= t < |fold.train| + |fold.validation| + |fold.test|
  {
    LookbackFrom364(t);
    ExpectedInputs(Timeline(raw, s), t, dow, SeriesCodes(raw, s), sqrt)
  }

  lemma TrainRowMeans(raw: Raw, fold: Fold, sqrt: SquareRoot, s: nat, j: nat)
    requires Usable(raw, fold) && s < |raw.seriesIds| && j < |fold.validation|
    ensures
      var f, d := EngineeredFrames(raw, fold, sqrt).train, |fold.validation|;
      && WellFormed(f, |raw.seriesIds| * d) && 0 <= s * d + j < |raw.seriesIds| * d
      && f.seriesId[s * d + j] == raw.seriesIds[s] && f.y[s * d + j] == Timeline(raw, s)[|fold.train| + j]
      && InputsAt(f, |raw.seriesIds| * d, s * d + j) == InputsOn(raw, fold, s, |fold.train| + j, raw.valDow[j], sqrt)
  {
    var codes := AllCodes(raw.metadata);
    RowIsSeriesAndDay(raw.seriesIds, raw.validation, raw.train, raw.valDow, codes, sqrt, s, j);
    var short, timeline, t := raw.train.rows[s] + raw.validation.rows[s], Timeline(raw, s), |fold.train| + j;
    LookbackFrom364(t);
    assert short == timeline[..|short|];
    assert short[..t - ROLLING_LAG + 1] == timeline[..t - ROLLING_LAG + 1];
    OldDaysDecide(short, timeline, t, raw.valDow[j], SeriesCodes(raw, s), sqrt);
  }

  lemma TestRowMeans(raw: Raw, fold: Fold, sqrt: SquareRoot, s: nat, j: nat)
    requires Usable(raw, fold) && s < |raw.seriesIds| && j < |fold.test|
    ensures
      var f, d := EngineeredFrames(raw, fold, sqrt).test, |fold.test|;
      && WellFormed(f, |raw.seriesIds| * d) && 0 <= s * d + j < |raw.seriesIds| * d
      && f.seriesId[s * d + j] == raw.seriesIds[s] && f.y[s * d + j] == raw.test.rows[s][j]
      && InputsAt(f, |raw.seriesIds| * d, s * d + j)
         == InputsOn(raw, fold, s, |fold.train| + |fold.validation| + j, raw.testDow[j], sqrt)
  {
    RowIsSeriesAndDay(raw.seriesIds, raw.test, Beside(raw.train, raw.validation), raw.testDow,
      AllCodes(raw.metadata), sqrt, s, j);
  }

  /** The inputs for a test day do not read the test fold, those for a validation day read training days only. */
  lemma NoInputReadsItsFold(a: Raw, b: Raw, fold: Fold, sqrt: SquareRoot, s: nat, t: nat, dow: int)
    requires Usable(a, fold) && Usable(b, fold) && s < |a.seriesIds| == |b.seriesIds| && a.metadata == b.metadata
    requires |fold.train| <= t < |fold.train| + |fold.validation| + |fold.test|
    requires a.train == b.train
    requires t >= |fold.train| + |fold.validation| ==> a.validation == b.validation
    ensures InputsOn(a, fold, s, t, dow, sqrt) == InputsOn(b, fold, s, t, dow, sqrt)
  {
    LookbackFrom364(t);
    var x, y := Timeline(a, s), Timeline(b, s);
    var n := t - ROLLING_LAG + 1;
    assert x[..n] == y[..n];
    OldDaysDecide(x, y, t, dow, SeriesCodes(a, s), sqrt);
  }

  // ---------------------------------------------------------------------------
  // predict
  // ---------------------------------------------------------------------------

  type Booster = Inputs -> real

  /** `fit` on the training frame, its input rows and its targets; it may fail. */
  type Trainer = (seq<Inputs>, seq<real>) -> Option<Booster>

  function NonNegative(x: real): (r: real)
    ensures r >= 0.0 && (x >= 0.0 ==> r == x) && (x < 0.0 ==> r == 0.0)
  {
    if x >= 0.0 then x else 0.0
  }

  /** `predict`. */
  method Predict(booster: Booster, test: Frame, seriesIds: seq<string>, nTest: nat) returns (r: Result<seq<seq<real>>>)
    requires WellFormed(test, |test.seriesId|)
    ensures r == Err(RowCountMismatch) <==> |test.seriesId| != |seriesIds| * nTest
    ensures r.Ok? <==> |test.seriesId| == |seriesIds| * nTest
    ensures r.Ok? ==> |r.value| == |seriesIds| && Wide(r.value, nTest)
    ensures r.Ok? ==> forall s: nat, j: nat | s < |seriesIds| && j < nTest ::
      && 0 <= Entry(s, j, nTest) < |test.seriesId|
      && r.value[s][j] == NonNegative(booster(InputsAt(test, |test.seriesId|, Entry(s, j, nTest))))
      && r.value[s][j] >= 0.0
      && (booster(InputsAt(test, |test.seriesId|, Entry(s, j, nTest))) >= 0.0 ==>
            r.value[s][j] == booster(InputsAt(test, |test.seriesId|, Entry(s, j, nTest))))
  {
    var size := |test.seriesId|;
    var clipped := seq(size, k requires 0 <= k < size => NonNegative(booster(InputsAt(test, size, k))));
    if |clipped| != |seriesIds| * nTest {
      return Err(RowCountMismatch);
    }
    var cells := Reshape(clipped, |seriesIds|, nTest);
    forall s: nat, j: nat | s < |seriesIds| && j < nTest
      ensures 0 <= Entry(s, j, nTest) < size && cells[s][j] == clipped[Entry(s, j, nTest)]
    {
      ReshapeAt(clipped, |seriesIds|, nTest, s, j);
    }
    r := Ok(cells);
  }

  function TrainingInputs(f: Frame, size: nat): seq<Inputs>
    requires WellFormed(f, size)
  {
    seq(size, r requires 0 <= r < size => InputsAt(f, size, r))
  }

  /** The model the pipeline fits: a function of the training frame alone. */
  function Fitted(raw: Raw, fold: Fold, sqrt: SquareRoot, fit: Trainer): Option<Booster>
    requires Usable(raw, fold)
  {
    var f, size := EngineeredFrames(raw, fold, sqrt).train, |raw.seriesIds| * |fold.validation|;
    LongColumnsWellFormed(raw.seriesIds, raw.validation, raw.train, raw.valDow, AllCodes(raw.metadata), sqrt);
    fit(TrainingInputs(f, size), f.y)
  }

  /** The forecast for series `s`, test day `j`, said without frames. */
  function Forecast(raw: Raw, fold: Fold, sqrt: SquareRoot, fit: Trainer, s: nat, j: nat): real
    requires Usable(raw, fold) && s < |raw.seriesIds| && j < |fold.test| && Fitted(raw, fold, sqrt, fit).Some?
  {
    var t := |fold.train| + |fold.validation| + j;
    NonNegative(Fitted(raw, fold, sqrt, fit).value(InputsOn(raw, fold, s, t, raw.testDow[j], sqrt)))
  }

  // ---------------------------------------------------------------------------
  // Weights and scales
  // ---------------------------------------------------------------------------

  /** Every value divided by the total. */
  function Shares(values: seq<real>, total: real): (r: seq<real>)
    requires total != 0.0
    ensures |r| == |values| && forall i | 0 <= i < |values| :: r[i] == values[i] / total
  {
    seq(|values|, i requires 0 <= i < |values| => values[i] / total)
  }

  lemma {:induction false} SumOfShares(values: seq<real>, total: real)
    requires total != 0.0
    ensures Sum(Shares(values, total)) == Sum(values) / total
  {
    if values != [] {
      SumOfShares(values[..|values| - 1], total);
      assert Shares(values, total)[..|values| - 1] == Shares(values[..|values| - 1], total);
    }
  }

  lemma SharesAddUp(values: seq<real>, total: real)
    requires total != 0.0 && Sum(values) == total
    ensures Sum(Shares(values, total)) == 1.0
  {
    SumOfShares(values, total);
  }

  function Ones(n: nat): (r: seq<real>)
    ensures |r| == n && forall i | 0 <= i < n :: r[i] == 1.0
  {
    seq(n, _ => 1.0)
  }

  lemma {:induction false} SumOfOnes(n: nat)
    ensures Sum(Ones(n)) == n as real
  {
    if n > 0 {
      SumOfOnes(n - 1);
      assert Ones(n)[..n - 1] == Ones(n - 1);
    }
  }

  /** The training array has series and at least two days. */
  predicate Measurable(train: Matrix) {
    train.Grid? && train.rows != [] && train.width >= 2
  }

  /** The dollar volume, if there is one, has an entry per series and a positive sum. */
  predicate VolumeFits(raw: Raw)
    requires raw.train.Grid?
  {
    raw.dollarVolume.Some? ==>
      |raw.dollarVolume.value| == |raw.train.rows| && Sum(raw.dollarVolume.value) > 0.0
  }

  /** `_compute_weights_and_scales`. */
  method ComputeWeightsAndScales(raw: Raw, sqrt: SquareRoot) returns (r: Result<(seq<real>, seq<real>)>)
    requires Rectangular(raw.train)
    ensures r == Err(NoSeriesLeft) <==> raw.train.Grid? && raw.train.rows == []
    ensures r == Err(TrainTooShort) <==> raw.train.NoRows1D? || (raw.train.rows != [] && raw.train.width < 2)
    ensures r == Err(VolumeLengthDiffers) <==>
      Measurable(raw.train) && raw.dollarVolume.Some? && |raw.dollarVolume.value| != |raw.train.rows|
    ensures r == Err(NoVolume) <==>
      && Measurable(raw.train) && raw.dollarVolume.Some?
      && |raw.dollarVolume.value| == |raw.train.rows| && Sum(raw.dollarVolume.value) <= 0.0
    ensures r == Err(ZeroScale) <==>
      && Measurable(raw.train) && VolumeFits(raw)
      && exists i :: 0 <= i < |raw.train.rows| && !HasScale(raw.train.rows[i], sqrt)
    ensures r.Err? ==> r.error in {NoSeriesLeft, TrainTooShort, VolumeLengthDiffers, NoVolume, ZeroScale}
    ensures r.Ok? ==> raw.train.Grid? && |r.value.0| == |r.value.1| == |raw.train.rows|
    ensures r.Ok? ==> forall i | 0 <= i < |raw.train.rows| ::
      HasScale(raw.train.rows[i], sqrt) && r.value.1[i] == Scale(raw.train.rows[i], sqrt)
    ensures r.Ok? && raw.dollarVolume.None? ==> forall i | 0 <= i < |r.value.0| ::
      r.value.0[i] == 1.0 / |raw.train.rows| as real
    ensures r.Ok? ==> Sum(r.value.0) == 1.0
  {
    if raw.train.NoRows1D? {
      return Err(TrainTooShort);
    }
    var rows := raw.train.rows;
    var n := |rows|;
    if n == 0 {
      return Err(NoSeriesLeft);
    }
    if raw.train.width < 2 {
      return Err(TrainTooShort);
    }
    var scales := seq(n, i requires 0 <= i < n => Scale(rows[i], sqrt));
    var weights := Shares(Ones(n), n as real);
    SumOfOnes(n);
    SharesAddUp(Ones(n), n as real);
    if raw.dollarVolume.Some? {
      var volume := raw.dollarVolume.value;
      if |volume| != n {
        return Err(VolumeLengthDiffers);
      }
      var total := Sum(volume);
      if total <= 0.0 {
        return Err(NoVolume);
      }
      weights := Shares(volume, total);
      SharesAddUp(volume, total);
    }
    assert forall i | 0 <= i < n :: HasScale(rows[i], sqrt) <==> scales[i] > 0.0;
    if exists i :: 0 <= i < n && scales[i] <= 0.0 {
      return Err(ZeroScale);
    }
    r := Ok((weights, scales));
  }

  // ---------------------------------------------------------------------------
  // The whole run
  // ---------------------------------------------------------------------------

  datatype Output = Output(seriesIds: seq<string>, predictions: seq<seq<real>>, actuals: Matrix,
                           weights: seq<real>, scales: seq<real>)

  /** Everything the pipeline is run with besides the data. */
  datatype Setup = Setup(parse: ParseFloat, weekday: Weekday, percentile: Percentile, sqrt: SquareRoot, fit: Trainer)

  /** The data of a run as loaded. */
  function LoadedRaw(catalog: Catalog, fold: Fold, request: Option<seq<string>>, setup: Setup): (raw: Raw)
    requires Valid(catalog)
    ensures Aligned(raw, fold)
  {
    RawAt(catalog, fold, Loaded(catalog, request), setup.parse, setup.weekday)
  }

  /** The cleaned data of a run. */
  function Cleaned(catalog: Catalog, fold: Fold, request: Option<seq<string>>, setup: Setup): (raw: Raw)
    requires Valid(catalog)
    ensures Aligned(raw, fold)
  {
    Handled(LoadedRaw(catalog, fold, request, setup), fold, setup.percentile, setup.sqrt)
  }

  /** Nobody in the file was asked for. */
  ghost predicate NoWantedRow(catalog: Catalog, request: Option<seq<string>>)
    requires Valid(catalog)
  {
    forall i: nat | i < |catalog.rows| :: !Wanted(request, IdOf(catalog, i))
  }

  /** The folds suit the v2 features. */
  predicate FoldsFit(fold: Fold) {
    |fold.validation| == |fold.test| && |fold.train| >= 364 && |fold.test| <= 28
  }

  lemma NothingLoadedIff(catalog: Catalog, request: Option<seq<string>>)
    requires Valid(catalog)
    ensures Loaded(catalog, request) == [] <==> NoWantedRow(catalog, request)
  {
    var wanted := WantedRows(catalog, request);
    assert |Loaded(catalog, request)| == |wanted|;
    assert wanted != [] ==> wanted[0] in wanted;
    if i: nat :| i < |catalog.rows| && Wanted(request, IdOf(catalog, i)) {
      assert i in wanted;
    }
  }

  /** When frames can be built, in terms of the inputs of the run. */
  lemma UsableIff(catalog: Catalog, fold: Fold, request: Option<seq<string>>, setup: Setup)
    requires Valid(catalog)
    ensures Cleaned(catalog, fold, request, setup).train.NoRows1D? <==> NoWantedRow(catalog, request)
    ensures Usable(Cleaned(catalog, fold, request, setup), fold) <==> !NoWantedRow(catalog, request) && FoldsFit(fold)
  {
    NothingLoadedIff(catalog, request);
    assert LoadedRaw(catalog, fold, request, setup).train.NoRows1D? <==> Loaded(catalog, request) == [];
  }

  /** The file row has a positive scale after capping. */
  predicate StillMoves(catalog: Catalog, fold: Fold, setup: Setup, row: nat)
    requires Valid(catalog) && row < |catalog.rows|
  {
    var days := Values(catalog, catalog.rows[row], fold.train, setup.parse);
    HasScale(Clipped(days, setup.percentile(days)), setup.sqrt)
  }

  /** Some file row was asked for and has a positive scale after capping. */
  ghost predicate SomeWantedRowMoves(catalog: Catalog, fold: Fold, request: Option<seq<string>>, setup: Setup)
    requires Valid(catalog)
  {
    exists i: nat :: i < |catalog.rows| && Wanted(request, IdOf(catalog, i)) && StillMoves(catalog, fold, setup, i)
  }

  /** Series are left exactly if some wanted row has a positive scale after capping. */
  lemma SeriesLeftIff(catalog: Catalog, fold: Fold, request: Option<seq<string>>, setup: Setup)
    requires Valid(catalog) && |fold.train| > 0
    ensures Cleaned(catalog, fold, request, setup).seriesIds != []
       <==> SomeWantedRowMoves(catalog, fold, request, setup)
  {
    var p, before := Loaded(catalog, request), LoadedRaw(catalog, fold, request, setup);
    NothingLoadedIff(catalog, request);
    if p != [] {
      var rows := ClippedRows(before.train.rows, setup.percentile);
      var kept := Kept(rows, setup.sqrt);
      assert |Cleaned(catalog, fold, request, setup).seriesIds| == |kept|;
      if kept != [] {
        assert kept[0] in kept;
        LoadedAreWanted(catalog, request, kept[0]);
        assert StillMoves(catalog, fold, setup, p[kept[0]]);
      }
      if i: nat :| i < |catalog.rows| && Wanted(request, IdOf(catalog, i)) && StillMoves(catalog, fold, setup, i) {
        var x := LoadedAt(catalog, request, i);
        assert x in kept;
      }
    }
  }

  lemma LoadedAreWanted(catalog: Catalog, request: Option<seq<string>>, i: nat)
    requires Valid(catalog) && i < |Loaded(catalog, request)|
    ensures Wanted(request, IdOf(catalog, Loaded(catalog, request)[i]))
  {
    var wanted := WantedRows(catalog, request);
    if request.None? {
      assert wanted[i] in wanted;
    } else {
      var order := Order(IdsAt(catalog, wanted), Earlier(request.value));
      assert wanted[order[i]] in wanted;
    }
  }

  lemma LoadedAt(catalog: Catalog, request: Option<seq<string>>, row: nat) returns (x: nat)
    requires Valid(catalog) && row < |catalog.rows| && Wanted(request, IdOf(catalog, row))
    ensures x < |Loaded(catalog, request)| && Loaded(catalog, request)[x] == row
  {
    var wanted := WantedRows(catalog, request);
    assert row in wanted;
    var w: nat :| w < |wanted| && wanted[w] == row;
    if request.None? {
      x := w;
    } else {
      var order := Order(IdsAt(catalog, wanted), Earlier(request.value));
      assert w in order;
      x :| 0 <= x < |order| && order[x] == w;
    }
  }

  /** Every cell of the output is the forecast of its series and day. */
  ghost predicate CellsCorrespond(out: Output, raw: Raw, fold: Fold, setup: Setup)
    requires Usable(raw, fold) && Fitted(raw, fold, setup.sqrt, setup.fit).Some?
  {
    && out.seriesIds == raw.seriesIds && out.actuals == raw.test
    && IsForecast(out.predictions, raw, fold, setup)
    && |out.weights| == |out.scales| == |raw.seriesIds|
    && (forall s | 0 <= s < |raw.seriesIds| ::
          && out.weights[s] == 1.0 / |raw.seriesIds| as real
          && |raw.train.rows[s]| >= 2 && out.scales[s] == Scale(raw.train.rows[s], setup.sqrt) && out.scales[s] > 0.0)
  }

  ghost predicate IsForecast(cells: seq<seq<real>>, raw: Raw, fold: Fold, setup: Setup)
    requires Usable(raw, fold) && Fitted(raw, fold, setup.sqrt, setup.fit).Some?
  {
    && |cells| == |raw.seriesIds| && Wide(cells, |fold.test|)
    && forall s: nat, j: nat | s < |raw.seriesIds| && j < |fold.test| ::
         cells[s][j] == Forecast(raw, fold, setup.sqrt, setup.fit, s, j)
  }

  lemma PredictionsCorrespond(raw: Raw, fold: Fold, setup: Setup, cells: seq<seq<real>>)
    requires Usable(raw, fold) && Fitted(raw, fold, setup.sqrt, setup.fit).Some?
    requires |cells| == |raw.seriesIds| && Wide(cells, |fold.test|)
    requires
      var f, size := EngineeredFrames(raw, fold, setup.sqrt).test, |raw.seriesIds| * |fold.test|;
      var booster := Fitted(raw, fold, setup.sqrt, setup.fit).value;
      && WellFormed(f, size)
      && forall s: nat, j: nat | s < |raw.seriesIds| && j < |fold.test| ::
           0 <= Entry(s, j, |fold.test|) < size
           && cells[s][j] == NonNegative(booster(InputsAt(f, size, Entry(s, j, |fold.test|))))
    ensures IsForecast(cells, raw, fold, setup)
  {
    forall s: nat, j: nat | s < |raw.seriesIds| && j < |fold.test|
      ensures cells[s][j] == Forecast(raw, fold, setup.sqrt, setup.fit, s, j)
    {
      TestRowMeans(raw, fold, setup.sqrt, s, j);
    }
  }

  /** Training and prediction. */
  method FitAndPredict(raw: Raw, fold: Fold, setup: Setup, features: Engineered)
    returns (predictions: Result<seq<seq<real>>>)
    requires Usable(raw, fold) && features == EngineeredFrames(raw, fold, setup.sqrt)
    ensures predictions == Err(TrainingFailed) <==> Fitted(raw, fold, setup.sqrt, setup.fit).None?
    ensures predictions.Ok? <==> Fitted(raw, fold, setup.sqrt, setup.fit).Some?
    ensures predictions.Ok? ==> IsForecast(predictions.value, raw, fold, setup)
  {
    var train, test := features.train, features.test;
    LongColumnsWellFormed(raw.seriesIds, raw.validation, raw.train, raw.valDow, AllCodes(raw.metadata), setup.sqrt);
    LongColumnsWellFormed(raw.seriesIds, raw.test, Beside(raw.train, raw.validation), raw.testDow,
                          AllCodes(raw.metadata), setup.sqrt);
    var booster := setup.fit(TrainingInputs(train, |train.seriesId|), train.y);
    if booster.None? {
      return Err(TrainingFailed);
    }
    predictions := Predict(booster.value, test, features.seriesIds, |fold.test|);
    PredictionsCorrespond(raw, fold, setup, predictions.value);
  }

  /** Cleaning leaves only series with a positive scale, and loading sets no volume. */
  lemma CleanedHasScales(catalog: Catalog, fold: Fold, request: Option<seq<string>>, setup: Setup)
    requires Valid(catalog) && |fold.train| > 0
    ensures Scaled(Cleaned(catalog, fold, request, setup), setup.sqrt)
  {
    var before := LoadedRaw(catalog, fold, request, setup);
    if !NoCells(before.train) {
      var rows := ClippedRows(before.train.rows, setup.percentile);
      var kept := Kept(rows, setup.sqrt);
      forall i | 0 <= i < |kept| ensures HasScale(rows[kept[i]], setup.sqrt) {
        assert kept[i] in kept;
      }
    }
  }

  /** Frames are built: there is something to load, and the folds suit the features. */
  ghost predicate BuildsFrames(catalog: Catalog, fold: Fold, request: Option<seq<string>>)
    requires Valid(catalog)
  {
    Loadable(catalog, fold, request) && !NoWantedRow(catalog, request) && FoldsFit(fold)
  }

  /** The error a run stops with that builds no frames, in the order of the checks. */
  ghost predicate StopsWith(catalog: Catalog, fold: Fold, request: Option<seq<string>>, error: Error)
    requires Valid(catalog)
  {
    if !Loadable(catalog, fold, request) then LoadError(catalog, fold, request) == Some(error)
    else if |fold.validation| != |fold.test| then error == FoldsDiffer
    else if NoWantedRow(catalog, request) then error == OneDimensional
    else if |fold.train| < 364 then error == TrainTooShort
    else error == LagOutOfBounds
  }

  /** What becomes of data that has frames. */
  ghost predicate Finishes(raw: Raw, fold: Fold, setup: Setup, r: Result<Output>)
    requires Usable(raw, fold)
  {
    if Fitted(raw, fold, setup.sqrt, setup.fit).None? then r == Err(TrainingFailed)
    else if raw.seriesIds == [] then r == Err(NoSeriesLeft)
    else r.Ok? && CellsCorrespond(r.value, raw, fold, setup)
  }

  /** How a run ends, in terms of what it is given. */
  ghost predicate Ends(catalog: Catalog, fold: Fold, request: Option<seq<string>>, setup: Setup, r: Result<Output>)
    requires Valid(catalog)
  {
    if !BuildsFrames(catalog, fold, request) then r.Err? && StopsWith(catalog, fold, request, r.error)
    else
      UsableIff(catalog, fold, request, setup);
      Finishes(Cleaned(catalog, fold, request, setup), fold, setup, r)
  }

  ghost predicate Scaled(raw: Raw, sqrt: SquareRoot) {
    raw.dollarVolume.None?
    && (raw.train.Grid? ==> forall i | 0 <= i < |raw.train.rows| :: HasScale(raw.train.rows[i], sqrt))
  }

  /** The stages after the frames are built. */
  method FinishRun(raw: Raw, fold: Fold, setup: Setup, features: Engineered) returns (r: Result<Output>)
    requires Usable(raw, fold) && features == EngineeredFrames(raw, fold, setup.sqrt) && Scaled(raw, setup.sqrt)
    ensures Finishes(raw, fold, setup, r)
  {
    var predictions := FitAndPredict(raw, fold, setup, features);
    if predictions.Err? {
      return Err(predictions.error);
    }
    var metric := ComputeWeightsAndScales(raw, setup.sqrt);
    assert |raw.train.rows| == |raw.seriesIds| && raw.train.width == |fold.train|;
    if metric.Err? {
      return Err(metric.error);
    }
    r := Ok(Output(features.seriesIds, predictions.value, raw.test, metric.value.0, metric.value.1));
  }

  /** Loading and cleaning. */
  method LoadAndClean(catalog: Catalog, fold: Fold, request: Option<seq<string>>, setup: Setup) returns (r: Result<Raw>)
    requires Valid(catalog)
    ensures r.Ok? <==> Loadable(catalog, fold, request)
    ensures r.Err? ==> LoadError(catalog, fold, request) == Some(r.error)
    ensures r.Ok? ==> r.value == Cleaned(catalog, fold, request, setup)
  {
    var loaded := Load(catalog, fold, request, setup.parse, setup.weekday);
    if loaded.Err? {
      return Err(loaded.error);
    }
    var raw := Handle(loaded.value, fold, setup.percentile, setup.sqrt);
    r := Ok(raw);
  }

  /** `run_baseline` for v2. */
  method RunBaseline(catalog: Catalog, fold: Fold, request: Option<seq<string>>, setup: Setup)
    returns (r: Result<Output>)
    requires Valid(catalog)
    ensures Ends(catalog, fold, request, setup, r)
  {
    var cleaned := LoadAndClean(catalog, fold, request, setup);
    if cleaned.Err? {
      return Err(cleaned.error);
    }
    UsableIff(catalog, fold, request, setup);
    var features := Engineer(cleaned.value, fold, setup.sqrt);
    if features.Err? {
      return Err(features.error);
    }
    CleanedHasScales(catalog, fold, request, setup);
    r := FinishRun(cleaned.value, fold, setup, features.value);
  }

  /** Training on the cleaned data fails. */
  ghost predicate TrainingFails(catalog: Catalog, fold: Fold, request: Option<seq<string>>, setup: Setup)
    requires Valid(catalog) && BuildsFrames(catalog, fold, request)
  {
    UsableIff(catalog, fold, request, setup);
    Fitted(Cleaned(catalog, fold, request, setup), fold, setup.sqrt, setup.fit).None?
  }

  /** When a run ends in which way, said of the file, the fold and the request. */
  lemma RunEndsIff(catalog: Catalog, fold: Fold, request: Option<seq<string>>, setup: Setup, r: Result<Output>)
    requires Valid(catalog) && Ends(catalog, fold, request, setup, r)
    ensures r == Err(FoldsDiffer) <==> Loadable(catalog, fold, request) && |fold.validation| != |fold.test|
    ensures r == Err(OneDimensional) <==>
      Loadable(catalog, fold, request) && |fold.validation| == |fold.test| && NoWantedRow(catalog, request)
    ensures r == Err(TrainingFailed) <==>
      BuildsFrames(catalog, fold, request) && TrainingFails(catalog, fold, request, setup)
    ensures r == Err(NoSeriesLeft) <==>
      && BuildsFrames(catalog, fold, request) && !TrainingFails(catalog, fold, request, setup)
      && !SomeWantedRowMoves(catalog, fold, request, setup)
    ensures r.Ok? <==>
      && BuildsFrames(catalog, fold, request) && !TrainingFails(catalog, fold, request, setup)
      && SomeWantedRowMoves(catalog, fold, request, setup)
  {
    if BuildsFrames(catalog, fold, request) {
      SeriesLeftIff(catalog, fold, request, setup);
    }
  }

  // ---------------------------------------------------------------------------
  // Which series come out, and from where
  // ---------------------------------------------------------------------------

  /** Series `s` of `raw` is the given file row: training days capped, the other days as they are. */
  ghost predicate SeriesIsFileRow(catalog: Catalog, fold: Fold, setup: Setup, raw: Raw, s: nat, row: nat)
    requires Valid(catalog) && Aligned(raw, fold) && s < |raw.seriesIds| && row < |catalog.rows|
  {
    var cells := catalog.rows[row];
    var days := Values(catalog, cells, fold.train, setup.parse);
    && raw.seriesIds[s] == IdOf(catalog, row) && raw.metadata[s] == MetadataOf(catalog, cells)
    && Timeline(raw, s)
       == Clipped(days, setup.percentile(days))
          + Values(catalog, cells, fold.validation, setup.parse)
          + Values(catalog, cells, fold.test, setup.parse)
  }

  /** Every series of a run is a wanted row of the file. */
  lemma SeriesComesFromItsFileRow(catalog: Catalog, fold: Fold, request: Option<seq<string>>, setup: Setup, s: nat)
    returns (row: nat)
    requires Valid(catalog) && s < |Cleaned(catalog, fold, request, setup).seriesIds|
    ensures row < |catalog.rows| && Wanted(request, IdOf(catalog, row))
    ensures SeriesIsFileRow(catalog, fold, setup, Cleaned(catalog, fold, request, setup), s, row)
  {
    var p := Loaded(catalog, request);
    var before := LoadedRaw(catalog, fold, request, setup);
    if NoCells(before.train) {
      row := p[s];
      LoadedAreWanted(catalog, request, s);
      var days := Values(catalog, catalog.rows[row], fold.train, setup.parse);
      assert Clipped(days, setup.percentile(days)) == days;
    } else {
      var rows := ClippedRows(before.train.rows, setup.percentile);
      var kept := Kept(rows, setup.sqrt);
      row := p[kept[s]];
      LoadedAreWanted(catalog, request, kept[s]);
    }
  }

  /** Some file row has this id and is not constant after capping. */
  ghost predicate ExistsAndMoves(catalog: Catalog, fold: Fold, setup: Setup, id: string)
    requires Valid(catalog)
  {
    exists row: nat :: row < |catalog.rows| && IdOf(catalog, row) == id && !CappedConstant(catalog, fold, setup, row)
  }

  predicate CappedConstant(catalog: Catalog, fold: Fold, setup: Setup, row: nat)
    requires Valid(catalog) && row < |catalog.rows|
  {
    var days := Values(catalog, catalog.rows[row], fold.train, setup.parse);
    Constant(Clipped(days, setup.percentile(days)))
  }

  lemma MovesIffNotConstant(catalog: Catalog, fold: Fold, setup: Setup, row: nat)
    requires Valid(catalog) && row < |catalog.rows| && PositiveRoot(setup.sqrt)
    ensures StillMoves(catalog, fold, setup, row) <==> !CappedConstant(catalog, fold, setup, row)
  {
    var days := Values(catalog, catalog.rows[row], fold.train, setup.parse);
    ScaleIffMoves(Clipped(days, setup.percentile(days)), setup.sqrt);
  }

  /**
   For a request of distinct ids from a file of distinct ids: the series of a run are exactly
   the requested ones that the file has and that still move, in the order of the request.
   */
  lemma OutputInRequestOrder(catalog: Catalog, fold: Fold, request: seq<string>, setup: Setup, r: Result<Output>)
    requires Valid(catalog) && Distinct(request) && Distinct(FileIds(catalog)) && PositiveRoot(setup.sqrt)
    requires Ends(catalog, fold, Some(request), setup, r) && r.Ok?
    ensures InRequestOrder(r.value.seriesIds, request)
    ensures forall id :: id in r.value.seriesIds <==> id in request && ExistsAndMoves(catalog, fold, setup, id)
  {
    var ids := r.value.seriesIds;
    assert ids == Cleaned(catalog, fold, Some(request), setup).seriesIds;
    OutputOrder(catalog, fold, request, setup);
    forall id | id in ids ensures id in request && ExistsAndMoves(catalog, fold, setup, id) {
      var row := RowOfOutput(catalog, fold, request, setup, id);
      MovesIffNotConstant(catalog, fold, setup, row);
    }
    forall id | id in request && ExistsAndMoves(catalog, fold, setup, id) ensures id in ids {
      var row: nat :| row < |catalog.rows| && IdOf(catalog, row) == id && !CappedConstant(catalog, fold, setup, row);
      MovesIffNotConstant(catalog, fold, setup, row);
      MoverComesOut(catalog, fold, request, setup, row);
    }
  }

  lemma OutputOrder(catalog: Catalog, fold: Fold, request: seq<string>, setup: Setup)
    requires Valid(catalog) && Distinct(request) && Distinct(FileIds(catalog))
    ensures InRequestOrder(Cleaned(catalog, fold, Some(request), setup).seriesIds, request)
  {
    var loaded := IdsAt(catalog, Loaded(catalog, Some(request)));
    LoadedInRequestOrder(catalog, request);
    PresentInOrder(request, FileIds(catalog), |request|);
    assert request[..|request|] == request;
    var before := LoadedRaw(catalog, fold, Some(request), setup);
    assert before.seriesIds == loaded;
  }

  lemma RowOfOutput(catalog: Catalog, fold: Fold, request: seq<string>, setup: Setup, id: string) returns (row: nat)
    requires Valid(catalog) && |fold.train| > 0 && id in Cleaned(catalog, fold, Some(request), setup).seriesIds
    ensures row < |catalog.rows| && IdOf(catalog, row) == id && id in request && StillMoves(catalog, fold, setup, row)
  {
    var p, before := Loaded(catalog, Some(request)), LoadedRaw(catalog, fold, Some(request), setup);
    var rows := ClippedRows(before.train.rows, setup.percentile);
    var kept := Kept(rows, setup.sqrt);
    var ids := Cleaned(catalog, fold, Some(request), setup).seriesIds;
    var s: nat :| s < |ids| && ids[s] == id;
    assert kept[s] in kept;
    row := p[kept[s]];
    LoadedAreWanted(catalog, Some(request), kept[s]);
  }

  lemma MoverComesOut(catalog: Catalog, fold: Fold, request: seq<string>, setup: Setup, row: nat)
    requires Valid(catalog) && |fold.train| > 0 && row < |catalog.rows|
    requires IdOf(catalog, row) in request && StillMoves(catalog, fold, setup, row)
    ensures IdOf(catalog, row) in Cleaned(catalog, fold, Some(request), setup).seriesIds
  {
    var x := LoadedAt(catalog, Some(request), row);
    var before := LoadedRaw(catalog, fold, Some(request), setup);
    var rows := ClippedRows(before.train.rows, setup.percentile);
    var kept := Kept(rows, setup.sqrt);
    assert x in kept;
    var s: nat :| s < |kept| && kept[s] == x;
    assert Cleaned(catalog, fold, Some(request), setup).seriesIds[s] == before.seriesIds[x];
  }

  // ---------------------------------------------------------------------------
  // Held-out data
  // ---------------------------------------------------------------------------

  lemma FittedIgnoresTest(a: Raw, b: Raw, fold: Fold, setup: Setup)
    requires Usable(a, fold) && Usable(b, fold) && a.(test := b.test) == b
    ensures Fitted(a, fold, setup.sqrt, setup.fit) == Fitted(b, fold, setup.sqrt, setup.fit)
  {
    assert EngineeredFrames(a, fold, setup.sqrt).train == EngineeredFrames(b, fold, setup.sqrt).train;
  }

  lemma ForecastIgnoresTest(a: Raw, b: Raw, fold: Fold, setup: Setup, s: nat, j: nat)
    requires Usable(a, fold) && Usable(b, fold) && a.(test := b.test) == b
    requires s < |a.seriesIds| && j < |fold.test|
    requires Fitted(a, fold, setup.sqrt, setup.fit).Some? && Fitted(b, fold, setup.sqrt, setup.fit).Some?
    ensures Forecast(a, fold, setup.sqrt, setup.fit, s, j) == Forecast(b, fold, setup.sqrt, setup.fit, s, j)
  {
    FittedIgnoresTest(a, b, fold, setup);
    NoInputReadsItsFold(a, b, fold, setup.sqrt, s, |fold.train| + |fold.validation| + j, a.testDow[j]);
  }

  lemma SamePredictions(a: Raw, b: Raw, fold: Fold, setup: Setup, x: seq<seq<real>>, y: seq<seq<real>>)
    requires Usable(a, fold) && Usable(b, fold) && a.(test := b.test) == b
    requires Fitted(a, fold, setup.sqrt, setup.fit).Some? && Fitted(b, fold, setup.sqrt, setup.fit).Some?
    requires IsForecast(x, a, fold, setup) && IsForecast(y, b, fold, setup)
    ensures x == y
  {
    forall s: nat | s < |x| ensures x[s] == y[s] {
      forall j: nat | j < |fold.test| ensures x[s][j] == y[s][j] {
        ForecastIgnoresTest(a, b, fold, setup, s, j);
      }
    }
  }

  /** Two raw sets that differ in test cells only end alike, up to the actuals. */
  lemma FinishIgnoresTest(a: Raw, b: Raw, fold: Fold, setup: Setup, x: Result<Output>, y: Result<Output>)
    requires Usable(a, fold) && Usable(b, fold) && a.(test := b.test) == b
    requires Finishes(a, fold, setup, x) && Finishes(b, fold, setup, y)
    ensures x.Err? || y.Err? ==> x == y
    ensures x.Ok? && y.Ok? ==> x.value.(actuals := y.value.actuals) == y.value
  {
    FittedIgnoresTest(a, b, fold, setup);
    if x.Ok? && y.Ok? {
      SamePredictions(a, b, fold, setup, x.value.predictions, y.value.predictions);
      SameWeights(a, b, fold, setup, x.value, y.value);
    }
  }

  lemma SameWeights(a: Raw, b: Raw, fold: Fold, setup: Setup, x: Output, y: Output)
    requires Usable(a, fold) && Usable(b, fold) && a.(test := b.test) == b
    requires Fitted(a, fold, setup.sqrt, setup.fit).Some? && Fitted(b, fold, setup.sqrt, setup.fit).Some?
    requires CellsCorrespond(x, a, fold, setup) && CellsCorrespond(y, b, fold, setup)
    ensures x.weights == y.weights && x.scales == y.scales
  {
  }

  lemma CleaningIgnoresTest(a: Raw, b: Raw, fold: Fold, setup: Setup)
    requires Aligned(a, fold) && Aligned(b, fold) && a.(test := b.test) == b
    ensures
      var x := Handled(a, fold, setup.percentile, setup.sqrt);
      var y := Handled(b, fold, setup.percentile, setup.sqrt);
      x.(test := y.test) == y
  {
  }

  /** Two catalogs that differ in the cells of test columns only, which are not read for anything else. */
  ghost predicate DifferInTestColumns(a: Catalog, b: Catalog, fold: Fold) {
    && Valid(a) && Valid(b) && a.columns == b.columns && |a.rows| == |b.rows|
    && "id" !in fold.test
    && (forall name | name in fold.test :: name !in fold.train && name !in fold.validation && name !in METADATA_COLS)
    && forall i, c | 0 <= i < |a.rows| && 0 <= c < |a.columns| && a.columns[c] !in fold.test ::
         a.rows[i][c] == b.rows[i][c]
  }

  lemma SameCells(a: Catalog, b: Catalog, fold: Fold, i: nat, name: string)
    requires DifferInTestColumns(a, b, fold) && i < |a.rows| && name !in fold.test
    ensures Cell(a, a.rows[i], name) == Cell(b, b.rows[i], name)
  {
  }

  lemma SameRow(a: Catalog, b: Catalog, fold: Fold, setup: Setup, i: nat)
    requires DifferInTestColumns(a, b, fold) && i < |a.rows|
    ensures IdOf(a, i) == IdOf(b, i) && MetadataOf(a, a.rows[i]) == MetadataOf(b, b.rows[i])
    ensures Values(a, a.rows[i], fold.train, setup.parse) == Values(b, b.rows[i], fold.train, setup.parse)
    ensures Values(a, a.rows[i], fold.validation, setup.parse) == Values(b, b.rows[i], fold.validation, setup.parse)
  {
    forall name | name !in fold.test ensures Cell(a, a.rows[i], name) == Cell(b, b.rows[i], name) {
      SameCells(a, b, fold, i, name);
    }
    forall k | 0 <= k < |fold.train| ensures fold.train[k] !in fold.test {
      assert fold.train[k] in fold.train;
    }
    forall k | 0 <= k < |fold.validation| ensures fold.validation[k] !in fold.test {
      assert fold.validation[k] in fold.validation;
    }
  }

  lemma SameLoaded(a: Catalog, b: Catalog, fold: Fold, request: Option<seq<string>>, setup: Setup)
    requires DifferInTestColumns(a, b, fold)
    ensures FileIds(a) == FileIds(b) && Loaded(a, request) == Loaded(b, request)
  {
    forall i | 0 <= i < |a.rows| ensures FileIds(a)[i] == FileIds(b)[i] {
      SameRow(a, b, fold, setup, i);
    }
    assert FileIds(a) == FileIds(b);
    var wanted := WantedRows(a, request);
    forall i | 0 <= i < |wanted| ensures IdOf(a, wanted[i]) == IdOf(b, wanted[i]) {
      SameRow(a, b, fold, setup, wanted[i]);
    }
    assert IdsAt(a, wanted) == IdsAt(b, wanted);
  }

  lemma SameRaw(a: Catalog, b: Catalog, fold: Fold, p: seq<nat>, setup: Setup)
    requires DifferInTestColumns(a, b, fold) && Positions(p, |a.rows|)
    ensures
      var x, y := RawAt(a, fold, p, setup.parse, setup.weekday), RawAt(b, fold, p, setup.parse, setup.weekday);
      x.(test := y.test) == y
  {
    forall k | 0 <= k < |p|
      ensures IdOf(a, p[k]) == IdOf(b, p[k]) && MetadataOf(a, a.rows[p[k]]) == MetadataOf(b, b.rows[p[k]])
      ensures Values(a, a.rows[p[k]], fold.train, setup.parse) == Values(b, b.rows[p[k]], fold.train, setup.parse)
      ensures Values(a, a.rows[p[k]], fold.validation, setup.parse)
           == Values(b, b.rows[p[k]], fold.validation, setup.parse)
    {
      SameRow(a, b, fold, setup, p[k]);
    }
    assert IdsAt(a, p) == IdsAt(b, p) && MetadataAt(a, p) == MetadataAt(b, p);
    assert ValuesAt(a, p, fold.train, setup.parse) == ValuesAt(b, p, fold.train, setup.parse);
    assert ValuesAt(a, p, fold.validation, setup.parse) == ValuesAt(b, p, fold.validation, setup.parse);
  }

  lemma SameWanted(a: Catalog, b: Catalog, request: Option<seq<string>>)
    requires Valid(a) && Valid(b) && FileIds(a) == FileIds(b)
    ensures NoWantedRow(a, request) <==> NoWantedRow(b, request)
  {
    assert |FileIds(a)| == |a.rows| && |FileIds(b)| == |b.rows|;
    assert forall i: nat | i < |a.rows| :: FileIds(a)[i] == IdOf(a, i);
    assert forall i: nat | i < |b.rows| :: FileIds(b)[i] == IdOf(b, i);
  }

  lemma SameStart(a: Catalog, b: Catalog, fold: Fold, request: Option<seq<string>>)
    requires Valid(a) && Valid(b) && a.columns == b.columns && FileIds(a) == FileIds(b)
    ensures BuildsFrames(a, fold, request) <==> BuildsFrames(b, fold, request)
  {
    SameWanted(a, b, request);
  }

  lemma SameStop(a: Catalog, b: Catalog, fold: Fold, request: Option<seq<string>>, x: Error, y: Error)
    requires Valid(a) && Valid(b) && a.columns == b.columns && FileIds(a) == FileIds(b)
    requires StopsWith(a, fold, request, x) && StopsWith(b, fold, request, y)
    ensures x == y
  {
    SameWanted(a, b, request);
    SameLoadError(a, b, fold, request);
  }

  lemma SameLoadError(a: Catalog, b: Catalog, fold: Fold, request: Option<seq<string>>)
    requires a.columns == b.columns
    ensures LoadError(a, fold, request) == LoadError(b, fold, request)
    ensures Loadable(a, fold, request) <==> Loadable(b, fold, request)
  {
  }

  lemma SameCleaned(a: Catalog, b: Catalog, fold: Fold, request: Option<seq<string>>, setup: Setup)
    requires DifferInTestColumns(a, b, fold)
    ensures var x, y := Cleaned(a, fold, request, setup), Cleaned(b, fold, request, setup); x.(test := y.test) == y
  {
    SameLoaded(a, b, fold, request, setup);
    SameRaw(a, b, fold, Loaded(a, request), setup);
    CleaningIgnoresTest(LoadedRaw(a, fold, request, setup), LoadedRaw(b, fold, request, setup), fold, setup);
  }

  /**
   Held-out cells decide neither how a run ends, nor which series it forecasts, nor any
   forecast, weight or scale: the outputs differ in the actuals at most.
   */
  lemma HeldOutColumnsDoNotMatter(a: Catalog, b: Catalog, fold: Fold, request: Option<seq<string>>, setup: Setup,
                                  x: Result<Output>, y: Result<Output>)
    requires DifferInTestColumns(a, b, fold)
    requires Ends(a, fold, request, setup, x) && Ends(b, fold, request, setup, y)
    ensures x.Ok? <==> y.Ok?
    ensures x.Ok? ==> x.value.(actuals := y.value.actuals) == y.value
    ensures x.Err? ==> x == y
  {
    SameLoaded(a, b, fold, request, setup);
    SameStart(a, b, fold, request);
    if BuildsFrames(a, fold, request) {
      UsableIff(a, fold, request, setup);
      UsableIff(b, fold, request, setup);
      SameCleaned(a, b, fold, request, setup);
      FinishIgnoresTest(Cleaned(a, fold, request, setup), Cleaned(b, fold, request, setup), fold, setup, x, y);
    } else {
      SameStop(a, b, fold, request, x.error, y.error);
    }
  }
}
