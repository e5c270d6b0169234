/**
 The array layout of the forecast pipeline: matrices with a row per series, and long columns
 with one entry per series and day. `repeat`, `tile`, `reshape(-1)` and `reshape((n, d))`
 all put series `s`, day `j` at entry `s * d + j`.
 */
module Frames {

  datatype Result<T> = Ok(value: T) | Err(error: Error)

  datatype Error =
    | EmptyRequest
    | MissingColumn(name: string)
    | FoldsDiffer
    | TrainTooShort
    | OneDimensional
    | LagOutOfBounds
    | ColumnLengthsDiffer
    | RowCountMismatch
    | TrainingFailed
    | NoSeriesLeft
    | VolumeLengthDiffers
    | NoVolume
    | ZeroScale

  /**
   A two-dimensional array. An array built from an empty list of rows has one dimension
   only, and so no width; one whose rows were all filtered out keeps its width.
   */
  datatype Matrix = NoRows1D | Grid(width: nat, rows: seq<seq<real>>)

  predicate Rectangular(m: Matrix) {
    m.Grid? ==> forall i | 0 <= i < |m.rows| :: |m.rows[i]| == m.width
  }

  function Height(m: Matrix): nat {
    if m.Grid? then |m.rows| else 0
  }

  // ---------------------------------------------------------------------------
  // Positions
  // ---------------------------------------------------------------------------

  lemma Position(s: nat, j: nat, n: nat, d: nat)
    requires s < n && j < d
    ensures 0 <= s * d + j < n * d
    ensures (s * d + j) / d == s && (s * d + j) % d == j
  {
    InRange(s, j, n, d);
    DivMod(s, j, d);
  }

  lemma InRange(s: nat, j: nat, n: nat, d: nat)
    requires s < n && j < d
    ensures 0 <= s * d + j < n * d
  {
    assert (s + 1) * d <= n * d;
    assert (s + 1) * d == s * d + d;
  }

  lemma DivMod(s: nat, j: nat, d: nat)
    requires j < d
    ensures (s * d + j) / d == s && (s * d + j) % d == j
  {
    var x := s * d + j;
    var q, r := x / d, x % d;
    assert x == q * d + r && 0 <= r < d;
    SameQuotient(s, j, q, r, d);
  }

  lemma Distribute(s: int, q: int, d: int)
    ensures (s - q) * d == s * d - q * d
  {
  }

  lemma AtLeastOnce(k: int, d: nat)
    requires k >= 1
    ensures k * d >= d
  {
    Distribute(k, 1, d);
  }

  lemma TimesMonotone(a: int, b: int, d: nat)
    requires a <= b
    ensures a * d <= b * d
  {
    Distribute(b, a, d);
  }

  lemma SameQuotient(s: int, j: int, q: int, r: int, d: int)
    requires 0 <= j < d && 0 <= r < d
    requires s * d + j == q * d + r
    ensures s == q && j == r
  {
    Distribute(s, q, d);
    Distribute(q, s, d);
    if s > q {
      AtLeastOnce(s - q, d);
    } else if s < q {
      AtLeastOnce(q - s, d);
    }
  }

  /** Every entry of a long column belongs to one series and day. */
  lemma Owner(r: nat, n: nat, d: nat)
    requires r < n * d
    ensures d > 0 && r / d < n && r % d < d && r == (r / d) * d + r % d
  {
    assert d == 0 ==> n * d == 0;
    var q := r / d;
    assert r == q * d + r % d;
    if q >= n {
      TimesMonotone(n, q, d);
    }
  }

  // ---------------------------------------------------------------------------
  // Long columns
  // ---------------------------------------------------------------------------

  /** The long position of series `s`, day `j`. */
  function Entry(s: nat, j: nat, d: nat): nat {
    s * d + j
  }

  /** `np.repeat(xs, d)`. */
  function Repeat<T>(xs: seq<T>, d: nat): (r: seq<T>)
    ensures |r| == |xs| * d
  {
    seq(|xs| * d, k requires 0 <= k < |xs| * d => Owner(k, |xs|, d); xs[k / d])
  }

  /** `np.tile(ys, n)`. */
  function Tile<T>(ys: seq<T>, n: nat): (r: seq<T>)
    ensures |r| == n * |ys|
  {
    seq(n * |ys|, k requires 0 <= k < n * |ys| => Owner(k, n, |ys|); ys[k % |ys|])
  }

  predicate Wide<T>(rows: seq<seq<T>>, d: nat) {
    forall i | 0 <= i < |rows| :: |rows[i]| == d
  }

  /** `rows.reshape(-1)`: the rows one after the other. */
  function Flatten<T>(rows: seq<seq<T>>, d: nat): (r: seq<T>)
    requires Wide(rows, d)
    ensures |r| == |rows| * d
  {
    seq(|rows| * d, k requires 0 <= k < |rows| * d => Owner(k, |rows|, d); rows[k / d][k % d])
  }

  /** `flat.reshape((n, d))`. */
  function Reshape<T>(flat: seq<T>, n: nat, d: nat): (rows: seq<seq<T>>)
    requires |flat| == n * d
    ensures |rows| == n && Wide(rows, d)
  {
    seq(n, s requires 0 <= s < n =>
      seq(d, j requires 0 <= j < d => InRange(s, j, n, d); flat[s * d + j]))
  }

  lemma RepeatAt<T>(xs: seq<T>, d: nat, s: nat, j: nat)
    requires s < |xs| && j < d
    ensures 0 <= s * d + j < |Repeat(xs, d)| && Repeat(xs, d)[s * d + j] == xs[s]
  {
    Position(s, j, |xs|, d);
  }

  lemma TileAt<T>(ys: seq<T>, n: nat, s: nat, j: nat)
    requires s < n && j < |ys|
    ensures 0 <= s * |ys| + j < |Tile(ys, n)| && Tile(ys, n)[s * |ys| + j] == ys[j]
  {
    Position(s, j, n, |ys|);
  }

  lemma FlattenAt<T>(rows: seq<seq<T>>, d: nat, s: nat, j: nat)
    requires Wide(rows, d) && s < |rows| && j < d
    ensures 0 <= s * d + j < |Flatten(rows, d)| && Flatten(rows, d)[s * d + j] == rows[s][j]
  {
    Position(s, j, |rows|, d);
  }

  lemma ReshapeAt<T>(flat: seq<T>, n: nat, d: nat, s: nat, j: nat)
    requires |flat| == n * d && s < n && j < d
    ensures 0 <= s * d + j < |flat| && Reshape(flat, n, d)[s][j] == flat[s * d + j]
  {
    InRange(s, j, n, d);
  }

  /** Reshaping undoes flattening. */
  lemma ReshapeOfFlatten<T>(rows: seq<seq<T>>, d: nat)
    requires Wide(rows, d)
    ensures Reshape(Flatten(rows, d), |rows|, d) == rows
  {
    var back := Reshape(Flatten(rows, d), |rows|, d);
    forall s | 0 <= s < |rows| ensures back[s] == rows[s] {
      forall j | 0 <= j < d ensures back[s][j] == rows[s][j] {
        FlattenAt(rows, d, s, j);
      }
    }
  }

  /** Flattening undoes reshaping. */
  lemma FlattenOfReshape<T>(flat: seq<T>, n: nat, d: nat)
    requires |flat| == n * d
    ensures Flatten(Reshape(flat, n, d), d) == flat
  {
    forall k | 0 <= k < n * d ensures Flatten(Reshape(flat, n, d), d)[k] == flat[k] {
      Owner(k, n, d);
    }
  }

  /** The nested comprehension `[x for x in xs for _ in range(d)]` is `repeat`. */
  function NestedRepeat<T>(xs: seq<T>, d: nat): seq<T> {
    if xs == [] then [] else NestedRepeat(xs[..|xs| - 1], d) + seq(d, _ => xs[|xs| - 1])
  }

  /** The nested comprehension `[y for _ in range(n) for y in ys]` is `tile`. */
  function NestedTile<T>(ys: seq<T>, n: nat): seq<T> {
    if n == 0 then [] else NestedTile(ys, n - 1) + ys
  }

  lemma OneMore(n: int, d: int)
    ensures (n + 1) * d == n * d + d
  {
  }

  lemma InLast(k: nat, n: nat, d: nat)
    requires n * d <= k < (n + 1) * d
    ensures k - n * d < d && k / d == n && k % d == k - n * d
  {
    OneMore(n, d);
    DivMod(n, k - n * d, d);
  }

  lemma RepeatLastAt<T>(xs: seq<T>, x: T, d: nat, k: nat)
    requires k < (|xs| + 1) * d
    ensures Repeat(xs + [x], d)[k] == if k < |xs| * d then Repeat(xs, d)[k] else x
  {
    if k < |xs| * d {
      Owner(k, |xs|, d);
    } else {
      InLast(k, |xs|, d);
    }
  }

  lemma RepeatLast<T>(xs: seq<T>, x: T, d: nat)
    ensures Repeat(xs + [x], d) == Repeat(xs, d) + seq(d, _ => x)
  {
    OneMore(|xs|, d);
    forall k: nat | k < (|xs| + 1) * d
      ensures Repeat(xs + [x], d)[k] == if k < |xs| * d then Repeat(xs, d)[k] else x
    {
      RepeatLastAt(xs, x, d, k);
    }
  }

  lemma {:induction false} NestedRepeatIsRepeat<T>(xs: seq<T>, d: nat)
    ensures NestedRepeat(xs, d) == Repeat(xs, d)
  {
    if xs != [] {
      var rest, x := xs[..|xs| - 1], xs[|xs| - 1];
      NestedRepeatIsRepeat(rest, d);
      RepeatLast(rest, x, d);
      assert rest + [x] == xs;
    }
  }

  lemma TileLastAt<T>(ys: seq<T>, n: nat, k: nat)
    requires k < (n + 1) * |ys|
    ensures k < n * |ys| ==> Tile(ys, n + 1)[k] == Tile(ys, n)[k]
    ensures k >= n * |ys| ==> k - n * |ys| < |ys| && Tile(ys, n + 1)[k] == ys[k - n * |ys|]
  {
    if k < n * |ys| {
      Owner(k, n, |ys|);
    } else {
      InLast(k, n, |ys|);
    }
  }

  lemma TileLast<T>(ys: seq<T>, n: nat)
    ensures Tile(ys, n + 1) == Tile(ys, n) + ys
  {
    OneMore(n, |ys|);
    forall k: nat | k < (n + 1) * |ys|
      ensures Tile(ys, n + 1)[k] == (Tile(ys, n) + ys)[k]
    {
      TileLastAt(ys, n, k);
    }
  }

  lemma {:induction false} NestedTileIsTile<T>(ys: seq<T>, n: nat)
    ensures NestedTile(ys, n) == Tile(ys, n)
  {
    if n > 0 {
      NestedTileIsTile(ys, n - 1);
      TileLast(ys, n - 1);
    }
  }
}
