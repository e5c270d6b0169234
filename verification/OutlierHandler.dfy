/**
 Cleaning the training data: spikes are capped per series, and series that no longer move
 are dropped from every parallel array at once.
 */
module OutlierHandler {
  import opened Frames
  import opened SeriesData
  import opened StableSort
  import opened Text

  /** The 99th percentile of a row, as NumPy computes it. */
  type Percentile = seq<real> -> real

  type SquareRoot = real -> real

  /** All that is needed of the square root: it is positive exactly on positive numbers. */
  ghost predicate PositiveRoot(sqrt: SquareRoot) {
    forall x | x >= 0.0 :: sqrt(x) > 0.0 <==> x > 0.0
  }

  function Min(x: real, y: real): (r: real)
    ensures r <= x && r <= y && (r == x || r == y)
  {
    if x <= y then x else y
  }

  /** A row is capped only if its cap is positive. */
  function Clipped(row: seq<real>, cap: real): (r: seq<real>)
    ensures |r| == |row|
    ensures cap > 0.0 ==> forall i | 0 <= i < |row| ::
      r[i] <= cap && (r[i] == row[i] || r[i] == cap) && (row[i] <= cap ==> r[i] == row[i])
    ensures cap <= 0.0 ==> r == row
  {
    if cap > 0.0 then seq(|row|, i requires 0 <= i < |row| => Min(row[i], cap)) else row
  }

  function ClippedRows(rows: seq<seq<real>>, percentile: Percentile): (r: seq<seq<real>>)
    ensures |r| == |rows| && forall i | 0 <= i < |rows| :: r[i] == Clipped(rows[i], percentile(rows[i]))
  {
    seq(|rows|, i requires 0 <= i < |rows| => Clipped(rows[i], percentile(rows[i])))
  }

  function Times(x: real, y: real): real {
    x * y
  }

  lemma SameSign(x: real, y: real)
    requires (x > 0.0 && y > 0.0) || (x < 0.0 && y < 0.0)
    ensures Times(x, y) > 0.0
  {
  }

  lemma SquareSign(x: real)
    ensures Times(x, x) >= 0.0 && (Times(x, x) == 0.0 <==> x == 0.0)
  {
    if x > 0.0 || x < 0.0 {
      SameSign(x, x);
    }
  }

  /** The sum of the squared day-to-day differences. */
  function SquaredSteps(row: seq<real>): real {
    if |row| < 2 then 0.0
    else
      var step := row[|row| - 1] - row[|row| - 2];
      SquaredSteps(row[..|row| - 1]) + Times(step, step)
  }

  /** The WRMSSE scale: the root mean square of the day-to-day differences. */
  function Scale(row: seq<real>, sqrt: SquareRoot): real
    requires |row| >= 2
  {
    sqrt(SquaredSteps(row) / (|row| - 1) as real)
  }

  /** `scale > 0`. With fewer than two days the mean is over nothing, NaN, and NaN is not positive. */
  predicate HasScale(row: seq<real>, sqrt: SquareRoot) {
    |row| >= 2 && Scale(row, sqrt) > 0.0
  }

  predicate Constant(row: seq<real>) {
    forall i, j | 0 <= i < |row| && 0 <= j < |row| :: row[i] == row[j]
  }

  lemma {:induction false} StepsVanishIffConstant(row: seq<real>)
    ensures SquaredSteps(row) >= 0.0
    ensures SquaredSteps(row) == 0.0 <==> Constant(row)
  {
    if |row| >= 2 {
      var rest, step := row[..|row| - 1], row[|row| - 1] - row[|row| - 2];
      StepsVanishIffConstant(rest);
      SquareSign(step);
      if step == 0.0 && Constant(rest) {
        forall i, j | 0 <= i < |row| && 0 <= j < |row| ensures row[i] == row[j] {
          assert forall k | 0 <= k < |rest| :: row[k] == rest[k] && rest[k] == rest[|rest| - 1];
        }
      }
      if Constant(row) {
        assert forall k | 0 <= k < |rest| :: rest[k] == row[k];
      }
    }
  }

  lemma QuotientSign(x: real, n: real)
    requires x >= 0.0 && n > 0.0
    ensures x / n >= 0.0 && (x / n > 0.0 <==> x > 0.0)
  {
  }

  /** A row has a positive scale exactly when it is not constant. */
  lemma ScaleIffMoves(row: seq<real>, sqrt: SquareRoot)
    requires PositiveRoot(sqrt)
    ensures HasScale(row, sqrt) <==> !Constant(row)
  {
    StepsVanishIffConstant(row);
    if |row| >= 2 {
      QuotientSign(SquaredSteps(row), (|row| - 1) as real);
    }
  }

  function Moving(sqrt: SquareRoot): seq<real> -> bool {
    (row: seq<real>) => HasScale(row, sqrt)
  }

  /** Positions of the rows with a positive scale. */
  function Kept(rows: seq<seq<real>>, sqrt: SquareRoot): (p: seq<nat>)
    ensures Positions(p, |rows|)
    ensures forall k: nat :: k in p <==> k < |rows| && HasScale(rows[k], sqrt)
    ensures forall i, j | 0 <= i < j < |p| :: p[i] < p[j]
  {
    Where(rows, Moving(sqrt))
  }

  function PickRows(m: Matrix, p: seq<nat>): (r: Matrix)
    requires m.Grid? && Positions(p, |m.rows|)
  {
    Grid(m.width, Pick(m.rows, p))
  }

  predicate NoCells(m: Matrix) {
    m.NoRows1D? || m.rows == [] || m.width == 0
  }

  /** The same selection from every array, with the training rows replaced. */
  function Select(raw: Raw, trainRows: seq<seq<real>>, p: seq<nat>): Raw
    requires raw.train.Grid? && raw.validation.Grid? && raw.test.Grid?
    requires |trainRows| == |raw.seriesIds| == |raw.validation.rows| == |raw.test.rows| == |raw.metadata|
    requires raw.dollarVolume.Some? ==> |raw.dollarVolume.value| == |raw.seriesIds|
    requires Positions(p, |raw.seriesIds|)
  {
    Raw(Pick(raw.seriesIds, p), Grid(raw.train.width, Pick(trainRows, p)),
        PickRows(raw.validation, p), PickRows(raw.test, p),
        if raw.dollarVolume.Some? then Some(Pick(raw.dollarVolume.value, p)) else None,
        Pick(raw.metadata, p), raw.valDow, raw.testDow)
  }

  function Handled(raw: Raw, fold: Fold, percentile: Percentile, sqrt: SquareRoot): (out: Raw)
    requires Aligned(raw, fold)
    ensures Aligned(out, fold)
  {
    if NoCells(raw.train) then raw
    else
      var rows := ClippedRows(raw.train.rows, percentile);
      Select(raw, rows, Kept(rows, sqrt))
  }

  /** The masked in-place minimum over a copy of the training rows. */
  method ClipTraining(rows: seq<seq<real>>, percentile: Percentile) returns (clipped: seq<seq<real>>)
    ensures clipped == ClippedRows(rows, percentile)
  {
    clipped := rows;
    for s := 0 to |rows|
      invariant |clipped| == |rows|
      invariant forall i | 0 <= i < s :: clipped[i] == Clipped(rows[i], percentile(rows[i]))
      invariant forall i | s <= i < |rows| :: clipped[i] == rows[i]
    {
      var cap := percentile(rows[s]);
      if cap > 0.0 {
        clipped := clipped[s := seq(|rows[s]|, i requires 0 <= i < |rows[s]| => Min(rows[s][i], cap))];
      }
    }
  }

  /** `np.where(scales > 0)`. */
  method FindKept(rows: seq<seq<real>>, sqrt: SquareRoot) returns (keptIndices: seq<nat>)
    ensures keptIndices == Kept(rows, sqrt)
  {
    keptIndices := [];
    for s := 0 to |rows|
      invariant keptIndices == Where(rows[..s], Moving(sqrt))
    {
      WhereStep(rows, Moving(sqrt), s);
      if HasScale(rows[s], sqrt) {
        keptIndices := keptIndices + [s];
      }
    }
    assert rows[..|rows|] == rows;
  }

  /** `handle`. */
  method Handle(raw: Raw, fold: Fold, percentile: Percentile, sqrt: SquareRoot) returns (out: Raw)
    requires Aligned(raw, fold)
    ensures out == Handled(raw, fold, percentile, sqrt)
  {
    if NoCells(raw.train) {
      return raw;
    }
    var trainClipped := ClipTraining(raw.train.rows, percentile);
    var keptIndices := FindKept(trainClipped, sqrt);
    out := Select(raw, trainClipped, keptIndices);
  }

  /**
   What cleaning does to a raw set with at least one cell: `kept` is one increasing
   selection shared by every array, of exactly the series that still move; training cells
   never grow; validation and test cells are untouched.
   */
  ghost predicate CleanedFrom(raw: Raw, out: Raw, kept: seq<nat>, percentile: Percentile)
    requires raw.train.Grid? && raw.validation.Grid? && raw.test.Grid?
  {
    && out.train.Grid? && out.validation.Grid? && out.test.Grid?
    && |out.seriesIds| == |out.metadata| == |out.train.rows| == |out.validation.rows| == |out.test.rows| == |kept|
    && (forall i, j | 0 <= i < j < |kept| :: kept[i] < kept[j])
    && (forall s: nat :: s in kept <==>
          s < |raw.train.rows| && !Constant(Clipped(raw.train.rows[s], percentile(raw.train.rows[s]))))
    && (forall i | 0 <= i < |kept| ::
          && kept[i] < |raw.seriesIds| && out.seriesIds[i] == raw.seriesIds[kept[i]]
          && kept[i] < |raw.metadata| && out.metadata[i] == raw.metadata[kept[i]]
          && kept[i] < |raw.validation.rows| && out.validation.rows[i] == raw.validation.rows[kept[i]]
          && kept[i] < |raw.test.rows| && out.test.rows[i] == raw.test.rows[kept[i]]
          && kept[i] < |raw.train.rows| && NoCellGrows(raw.train.rows[kept[i]], out.train.rows[i]))
    && (raw.dollarVolume.None? <==> out.dollarVolume.None?)
    && (raw.dollarVolume.Some? ==>
          |out.dollarVolume.value| == |kept| &&
          forall i | 0 <= i < |kept| ::
            kept[i] < |raw.dollarVolume.value| && out.dollarVolume.value[i] == raw.dollarVolume.value[kept[i]])
  }

  predicate NoCellGrows(before: seq<real>, after: seq<real>) {
    |before| == |after| && forall j | 0 <= j < |before| :: after[j] <= before[j]
  }

  lemma FilterKeepsMovers(raw: Raw, fold: Fold, percentile: Percentile, sqrt: SquareRoot) returns (kept: seq<nat>)
    requires Aligned(raw, fold) && PositiveRoot(sqrt) && !NoCells(raw.train)
    ensures CleanedFrom(raw, Handled(raw, fold, percentile, sqrt), kept, percentile)
  {
    var rows := ClippedRows(raw.train.rows, percentile);
    kept := Kept(rows, sqrt);
    forall s: nat ensures s in kept <==> s < |rows| && !Constant(rows[s]) {
      if s < |rows| {
        ScaleIffMoves(rows[s], sqrt);
      }
    }
    forall i | 0 <= i < |kept| ensures NoCellGrows(raw.train.rows[kept[i]], rows[kept[i]]) {
    }
  }

  /** Every series has a day that differs from another, hence a positive scale. */
  ghost predicate AllMove(raw: Raw) {
    raw.train.Grid? ==> forall i | 0 <= i < |raw.train.rows| :: !Constant(raw.train.rows[i])
  }

  /** That every series left has a positive scale fails exactly when there are series and no training days. */
  lemma FilterContractIff(raw: Raw, fold: Fold, percentile: Percentile, sqrt: SquareRoot)
    requires Aligned(raw, fold) && PositiveRoot(sqrt)
    ensures AllMove(Handled(raw, fold, percentile, sqrt)) <==> raw.seriesIds == [] || |fold.train| > 0
  {
    if NoCells(raw.train) {
      if raw.seriesIds != [] {
        assert Constant(raw.train.rows[0]);
      }
    } else {
      var kept := FilterKeepsMovers(raw, fold, percentile, sqrt);
      var rows := ClippedRows(raw.train.rows, percentile);
      assert Handled(raw, fold, percentile, sqrt).train.rows == Pick(rows, Kept(rows, sqrt));
      forall i | 0 <= i < |Kept(rows, sqrt)| ensures !Constant(rows[Kept(rows, sqrt)[i]]) {
        assert Kept(rows, sqrt)[i] in Kept(rows, sqrt);
        ScaleIffMoves(rows[Kept(rows, sqrt)[i]], sqrt);
      }
    }
  }
}
