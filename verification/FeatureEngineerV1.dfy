/**
 The v1 feature engineer: one lag column, taken from the last `|val|` training days for the
 training frame and from the validation fold for the test frame. The column is called
 `lag_28`; it holds the value `|val|` days earlier.
 */
module FeatureEngineerV1 {
  import opened FeatureEngineer
  import opened Frames
  import opened SeriesData

  datatype FrameV1 = FrameV1(seriesId: seq<string>, y: seq<real>, lag28: seq<real>, dayOfWeek: seq<int>,
    catIdCode: seq<nat>)

  datatype EngineeredV1 = EngineeredV1(train: FrameV1, test: FrameV1)

  /** Python's `row[-n:]`: everything when `n` is zero. */
  function LastDays(m: Matrix, n: nat): (r: Matrix)
    requires m.Grid? && Rectangular(m) && n <= m.width
    ensures r.Grid? && Rectangular(r) && |r.rows| == |m.rows| && r.width == (if n == 0 then m.width else n)
  {
    if n == 0 then m
    else Grid(n, seq(|m.rows|, i requires 0 <= i < |m.rows| => m.rows[i][m.width - n..]))
  }

  /** The arguments of `_long_frame`; the lag array may have another width than the target. */
  predicate FrameArgsV1(seriesIds: seq<string>, target: Matrix, lag: Matrix, dow: seq<int>, codes: seq<nat>) {
    && target.Grid? && lag.Grid? && Rectangular(target) && Rectangular(lag)
    && |target.rows| == |lag.rows| == |seriesIds| == |codes| && |dow| == target.width
  }

  /** The frame exists exactly when the lag column is as long as the others. */
  predicate LengthsAgree(n: nat, lagWidth: nat, d: nat) {
    n == 0 || lagWidth == d
  }

  lemma SameLengthIff(n: nat, a: nat, d: nat)
    ensures n * a == n * d <==> LengthsAgree(n, a, d)
  {
    if a < d {
      MultiplesGrow(n, a, d);
    } else if d < a {
      MultiplesGrow(n, d, a);
    }
  }

  lemma MultiplesGrow(n: nat, a: nat, b: nat)
    requires a < b
    ensures n > 0 ==> n * a < n * b
    ensures n == 0 ==> n * a == n * b == 0
  {
    assert n * b == n * a + n * (b - a);
    if n > 0 {
      AtLeastOnce(b - a, n);
      assert n * (b - a) == (b - a) * n;
    }
  }

  /** `_long_frame` of v1, with the length check of the data frame. */
  method LongFrameV1(seriesIds: seq<string>, target: Matrix, lag: Matrix, dow: seq<int>, codes: seq<nat>)
    returns (r: Result<FrameV1>)
    requires FrameArgsV1(seriesIds, target, lag, dow, codes)
    ensures r == Err(ColumnLengthsDiffer) <==> !LengthsAgree(|seriesIds|, lag.width, target.width)
    ensures r.Ok? <==> LengthsAgree(|seriesIds|, lag.width, target.width)
    ensures r.Ok? ==> HoldsV1(r.value, seriesIds, target, lag, dow, codes)
  {
    var n, d := |seriesIds|, target.width;
    var ids := NestedRepeat(seriesIds, d);
    var y := Flatten(target.rows, d);
    var lagColumn := Flatten(lag.rows, lag.width);
    var days := NestedTile(dow, n);
    var codeColumn := NestedRepeat(codes, d);
    NestedRepeatIsRepeat(seriesIds, d);
    NestedRepeatIsRepeat(codes, d);
    NestedTileIsTile(dow, n);
    SameLengthIff(n, lag.width, d);
    if |lagColumn| != |y| {
      return Err(ColumnLengthsDiffer);
    }
    r := Ok(FrameV1(ids, y, lagColumn, days, codeColumn));
    forall s: nat, j: nat | s < n && j < d ensures RowV1(r.value, seriesIds, target, lag, dow, codes, s, j) {
      RepeatAt(seriesIds, d, s, j);
      FlattenAt(target.rows, d, s, j);
      FlattenAt(lag.rows, d, s, j);
      TileAt(dow, n, s, j);
      RepeatAt(codes, d, s, j);
    }
  }

  /** The row of series `s`, day `j`. */
  ghost predicate RowV1(f: FrameV1, seriesIds: seq<string>, target: Matrix, lag: Matrix, dow: seq<int>,
            codes: seq<nat>, s: nat, j: nat)
    requires FrameArgsV1(seriesIds, target, lag, dow, codes) && s < |seriesIds| && j < target.width
  {
    var r := Entry(s, j, target.width);
    && r < |f.seriesId| == |f.y| == |f.lag28| == |f.dayOfWeek| == |f.catIdCode| && lag.width == target.width
    && f.seriesId[r] == seriesIds[s] && f.y[r] == target.rows[s][j] && f.lag28[r] == lag.rows[s][j]
    && f.dayOfWeek[r] == dow[j] && f.catIdCode[r] == codes[s]
  }

  ghost predicate HoldsV1(f: FrameV1, seriesIds: seq<string>, target: Matrix, lag: Matrix, dow: seq<int>,
            codes: seq<nat>)
    requires FrameArgsV1(seriesIds, target, lag, dow, codes)
  {
    && |f.seriesId| == |f.y| == |f.lag28| == |f.dayOfWeek| == |f.catIdCode| == |seriesIds| * target.width
    && forall s: nat, j: nat | s < |seriesIds| && j < target.width :: RowV1(f, seriesIds, target, lag, dow, codes, s, j)
  }

  /** The inputs for which the v1 engineer builds its frames. */
  predicate UsableV1(raw: Raw, fold: Fold) {
    && Aligned(raw, fold) && raw.train.Grid? && |fold.train| >= |fold.validation|
    && (raw.seriesIds == []
        || (|fold.validation| == |fold.test| && (|fold.validation| > 0 || |fold.train| == 0)))
  }

  /** `lag_28` is the value `|val|` days earlier on the series' timeline, in both frames. */
  ghost predicate LagIsOneFoldEarlier(raw: Raw, fold: Fold, e: EngineeredV1)
    requires Aligned(raw, fold) && raw.train.Grid? && |fold.validation| <= |fold.train|
  {
    var n, v, t := |raw.seriesIds|, |fold.validation|, |fold.train|;
    && (forall s: nat, j: nat | s < n && j < v ::
          Entry(s, j, v) < |e.train.lag28| && e.train.lag28[Entry(s, j, v)] == Timeline(raw, s)[t + j - v])
    && (forall s: nat, j: nat | s < n && j < |fold.test| ::
          && Entry(s, j, |fold.test|) < |e.test.lag28|
          && e.test.lag28[Entry(s, j, |fold.test|)] == Timeline(raw, s)[t + v + j - v])
  }

  /** `engineer` of v1. Nothing checks that the folds are equally long; the frames do not build if they are not. */
  method EngineerV1(raw: Raw, fold: Fold) returns (r: Result<EngineeredV1>)
    requires Aligned(raw, fold)
    ensures r.Ok? <==> UsableV1(raw, fold)
    ensures r == Err(OneDimensional) <==> raw.train.NoRows1D?
    ensures r == Err(TrainTooShort) <==> raw.train.Grid? && |fold.train| < |fold.validation|
    ensures r.Ok? ==> LagIsOneFoldEarlier(raw, fold, r.value)
    ensures r.Ok? ==>
      var codes := CodesOf(FieldValues(raw.metadata, "cat_id"));
      && HoldsV1(r.value.train, raw.seriesIds, raw.validation, LastDays(raw.train, |fold.validation|), raw.valDow,
        codes)
      && HoldsV1(r.value.test, raw.seriesIds, raw.test, raw.validation, raw.testDow, codes)
  {
    var nVal := |fold.validation|;
    if raw.train.NoRows1D? {
      return Err(OneDimensional);
    }
    if raw.train.width < nVal {
      return Err(TrainTooShort);
    }
    var trainLag := LastDays(raw.train, nVal);
    var codes, _ := EncodeCategorical(FieldValues(raw.metadata, "cat_id"));
    var train := LongFrameV1(raw.seriesIds, raw.validation, trainLag, raw.valDow, codes);
    if train.Err? {
      return Err(ColumnLengthsDiffer);
    }
    var test := LongFrameV1(raw.seriesIds, raw.test, raw.validation, raw.testDow, codes);
    if test.Err? {
      return Err(ColumnLengthsDiffer);
    }
    r := Ok(EngineeredV1(train.value, test.value));
    LagsOfHeldRows(raw, fold, r.value, codes);
  }

  lemma LagsOfHeldRows(raw: Raw, fold: Fold, e: EngineeredV1, codes: seq<nat>)
    requires UsableV1(raw, fold) && |codes| == |raw.seriesIds|
    requires HoldsV1(e.train, raw.seriesIds, raw.validation, LastDays(raw.train, |fold.validation|), raw.valDow, codes)
    requires HoldsV1(e.test, raw.seriesIds, raw.test, raw.validation, raw.testDow, codes)
    ensures LagIsOneFoldEarlier(raw, fold, e)
  {
    var n, v, t := |raw.seriesIds|, |fold.validation|, |fold.train|;
    var trainLag := LastDays(raw.train, v);
    forall s: nat, j: nat | s < n && j < v
      ensures Entry(s, j, v) < |e.train.lag28| && e.train.lag28[Entry(s, j, v)] == Timeline(raw, s)[t + j - v]
    {
      assert RowV1(e.train, raw.seriesIds, raw.validation, trainLag, raw.valDow, codes, s, j);
      assert trainLag.rows[s][j] == raw.train.rows[s][t - v + j];
    }
    forall s: nat, j: nat | s < n && j < |fold.test|
      ensures Entry(s, j, |fold.test|) < |e.test.lag28|
      ensures e.test.lag28[Entry(s, j, |fold.test|)] == Timeline(raw, s)[t + j]
    {
      assert RowV1(e.test, raw.seriesIds, raw.test, raw.validation, raw.testDow, codes, s, j);
    }
  }
}
