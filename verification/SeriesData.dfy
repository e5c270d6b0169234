/** The data contracts between the stages of the forecast pipeline. */
module SeriesData {
  import opened Frames
  import opened Text

  type Metadata = map<string, string>

  datatype Raw = Raw(
    seriesIds: seq<string>,
    train: Matrix,
    validation: Matrix,
    test: Matrix,
    dollarVolume: Option<seq<real>>,
    metadata: seq<Metadata>,
    valDow: seq<int>,
    testDow: seq<int>)

  datatype Fold = Fold(train: seq<string>, validation: seq<string>, test: seq<string>)

  /** The matrix has a row per series, and the given width if it has a width. */
  predicate Shaped(m: Matrix, n: nat, width: nat) {
    Rectangular(m) && Height(m) == n && (m.NoRows1D? || m.width == width)
  }

  /** Everything per series is aligned on `seriesIds`, everything per day on the fold. */
  predicate Aligned(raw: Raw, fold: Fold) {
    var n := |raw.seriesIds|;
    && Shaped(raw.train, n, |fold.train|)
    && Shaped(raw.validation, n, |fold.validation|)
    && Shaped(raw.test, n, |fold.test|)
    && (raw.train.NoRows1D? <==> raw.validation.NoRows1D?) && (raw.train.NoRows1D? <==> raw.test.NoRows1D?)
    && |raw.metadata| == n && (raw.dollarVolume.Some? ==> |raw.dollarVolume.value| == n)
    && |raw.valDow| == |fold.validation| && |raw.testDow| == |fold.test|
  }

  /** `m.get(field, "")` of every series. */
  function FieldValues(metadata: seq<Metadata>, field: string): (values: seq<string>)
    ensures |values| == |metadata|
  {
    seq(|metadata|, i requires 0 <= i < |metadata| => if field in metadata[i] then metadata[i][field] else "")
  }

  /** Row `i` of a matrix. */
  function RowOf(m: Matrix, i: nat): seq<real>
    requires i < Height(m)
  {
    m.rows[i]
  }

  /** Series `s` day by day: its training days, then validation, then test. */
  function Timeline(raw: Raw, s: nat): seq<real>
    requires s < Height(raw.train) && s < Height(raw.validation) && s < Height(raw.test)
  {
    RowOf(raw.train, s) + RowOf(raw.validation, s) + RowOf(raw.test, s)
  }
}
