/**
 Reading the sales table: one pass fills five parallel lists, which are then put into the
 order of the request. Row `i` of every list belongs to the same series, and with a request
 of distinct ids the series come back in exactly the order asked for.
 */
module DataLoader {
  import opened Frames
  import opened SeriesData
  import opened StableSort
  import opened Text

  /** `sales_train.csv`: its header and its rows, every row as long as the header. */
  datatype Catalog = Catalog(columns: seq<string>, rows: seq<seq<string>>)

  predicate Valid(catalog: Catalog) {
    forall i | 0 <= i < |catalog.rows| :: |catalog.rows[i]| == |catalog.columns|
  }

  /** `float(cell)`; the weekday of a day column. */
  type ParseFloat = string -> real
  type Weekday = string -> int

  const METADATA_COLS: seq<string> := ["item_id", "dept_id", "cat_id", "store_id", "state_id"]

  // ---------------------------------------------------------------------------
  // Columns
  // ---------------------------------------------------------------------------

  /** The last column of that name, as in a dict built from `enumerate`. */
  function IndexOf(columns: seq<string>, name: string): (i: Option<nat>)
    ensures i.Some? ==> i.value < |columns| && columns[i.value] == name
    ensures i.Some? ==> forall j | i.value < j < |columns| :: columns[j] != name
    ensures i.None? <==> name !in columns
  {
    if columns == [] then None
    else if columns[|columns| - 1] == name then Some(|columns| - 1)
    else
      assert columns == columns[..|columns| - 1] + [columns[|columns| - 1]];
      IndexOf(columns[..|columns| - 1], name)
  }

  predicate AllPresent(columns: seq<string>, names: seq<string>) {
    forall i | 0 <= i < |names| :: names[i] in columns
  }

  predicate AllBelow(idx: seq<nat>, n: nat) {
    forall i | 0 <= i < |idx| :: idx[i] < n
  }

  /** The first name that is no column. */
  function FirstMissing(columns: seq<string>, names: seq<string>): (name: Option<string>)
    ensures name.None? <==> AllPresent(columns, names)
    ensures name.Some? ==> name.value in names && name.value !in columns
  {
    if names == [] then None
    else if names[0] in columns then FirstMissing(columns, names[1..])
    else Some(names[0])
  }

  /** `_fold_column_indices`, for one part of the fold. */
  method ColumnIndices(columns: seq<string>, names: seq<string>) returns (r: Result<seq<nat>>)
    ensures r.Ok? <==> AllPresent(columns, names)
    ensures r.Err? ==> r.error.MissingColumn? && FirstMissing(columns, names) == Some(r.error.name)
    ensures r.Ok? ==> |r.value| == |names| && AllBelow(r.value, |columns|)
    ensures r.Ok? ==> forall i | 0 <= i < |names| :: IndexOf(columns, names[i]) == Some(r.value[i])
  {
    var idx: seq<nat> := [];
    for k := 0 to |names|
      invariant |idx| == k && AllBelow(idx, |columns|)
      invariant forall i | 0 <= i < k :: IndexOf(columns, names[i]) == Some(idx[i])
      invariant FirstMissing(columns, names) == FirstMissing(columns, names[k..])
    {
      assert names[k..][1..] == names[k + 1..];
      var at := IndexOf(columns, names[k]);
      if at.None? {
        return Err(MissingColumn(names[k]));
      }
      idx := idx + [at.value];
    }
    r := Ok(idx);
  }

  function Cell(catalog: Catalog, row: seq<string>, name: string): string
    requires |row| == |catalog.columns|
  {
    var at := IndexOf(catalog.columns, name);
    if at.Some? then row[at.value] else ""
  }

  /** The numbers of a row at the named day columns. */
  function Values(catalog: Catalog, row: seq<string>, names: seq<string>, parse: ParseFloat): (r: seq<real>)
    requires |row| == |catalog.columns|
    ensures |r| == |names|
  {
    seq(|names|, i requires 0 <= i < |names| => parse(Cell(catalog, row, names[i])))
  }

  function MetadataOf(catalog: Catalog, row: seq<string>): Metadata
    requires |row| == |catalog.columns|
  {
    map c | c in METADATA_COLS && c in catalog.columns :: Cell(catalog, row, c)
  }

  /** The metadata of a row: its cells in those of the five category columns that the file has. */
  lemma MetadataSays(catalog: Catalog, row: seq<string>, field: string)
    requires |row| == |catalog.columns|
    ensures field in MetadataOf(catalog, row) <==>
      && (field == "item_id" || field == "dept_id" || field == "cat_id" || field == "store_id" || field == "state_id")
      && field in catalog.columns
    ensures field in MetadataOf(catalog, row) ==>
      exists i :: 0 <= i < |row| && catalog.columns[i] == field && MetadataOf(catalog, row)[field] == row[i]
  {
    assert METADATA_COLS == ["item_id", "dept_id", "cat_id", "store_id", "state_id"];
    assert field in METADATA_COLS <==>
      exists k :: 0 <= k < 5 && ["item_id", "dept_id", "cat_id", "store_id", "state_id"][k] == field;
  }

  // ---------------------------------------------------------------------------
  // Which rows, in which order
  // ---------------------------------------------------------------------------

  predicate Wanted(request: Option<seq<string>>, id: string) {
    request.None? || id in request.value
  }

  function IdOf(catalog: Catalog, i: nat): string
    requires Valid(catalog) && i < |catalog.rows|
  {
    Cell(catalog, catalog.rows[i], "id")
  }

  /** The ids of the file, in file order. */
  function FileIds(catalog: Catalog): (ids: seq<string>)
    requires Valid(catalog)
    ensures |ids| == |catalog.rows| && forall i | 0 <= i < |ids| :: ids[i] == IdOf(catalog, i)
  {
    seq(|catalog.rows|, i requires 0 <= i < |catalog.rows| => IdOf(catalog, i))
  }

  function Wants(request: Option<seq<string>>): string -> bool {
    (id: string) => Wanted(request, id)
  }

  /** File positions of the wanted rows, in file order. */
  function WantedRows(catalog: Catalog, request: Option<seq<string>>): (p: seq<nat>)
    requires Valid(catalog)
    ensures Positions(p, |catalog.rows|)
    ensures forall k: nat :: k in p <==> k < |catalog.rows| && Wanted(request, IdOf(catalog, k))
    ensures forall i, j | 0 <= i < j < |p| :: p[i] < p[j]
  {
    Where(FileIds(catalog), Wants(request))
  }

  /** `order[id]`; ids outside the request do not occur where it is used. */
  function Place(request: seq<string>, id: string): nat {
    var at := IndexOf(request, id);
    if at.Some? then at.value else |request|
  }

  function Earlier(request: seq<string>): (string, string) -> bool {
    (a: string, b: string) => Place(request, a) <= Place(request, b)
  }

  lemma EarlierIsAnOrder(request: seq<string>)
    ensures TotalPreorder(Earlier(request))
  {
  }

  function IdsAt(catalog: Catalog, p: seq<nat>): (ids: seq<string>)
    requires Valid(catalog) && Positions(p, |catalog.rows|)
    ensures |ids| == |p| && forall i | 0 <= i < |p| :: ids[i] == IdOf(catalog, p[i])
  {
    seq(|p|, i requires 0 <= i < |p| => IdOf(catalog, p[i]))
  }

  /** The file positions behind the loaded series, in their final order. */
  function Loaded(catalog: Catalog, request: Option<seq<string>>): (p: seq<nat>)
    requires Valid(catalog)
    ensures Positions(p, |catalog.rows|)
  {
    var wanted := WantedRows(catalog, request);
    if request.None? then wanted
    else Pick(wanted, Order(IdsAt(catalog, wanted), Earlier(request.value)))
  }

  // ---------------------------------------------------------------------------
  // load
  // ---------------------------------------------------------------------------

  /** `np.asarray` of a list of equally long rows. */
  function AsArray(rows: seq<seq<real>>, width: nat): Matrix {
    if rows == [] then NoRows1D else Grid(width, rows)
  }

  function ValuesAt(catalog: Catalog, p: seq<nat>, names: seq<string>, parse: ParseFloat): (r: seq<seq<real>>)
    requires Valid(catalog) && Positions(p, |catalog.rows|)
    ensures |r| == |p| && forall i | 0 <= i < |p| :: r[i] == Values(catalog, catalog.rows[p[i]], names, parse)
  {
    seq(|p|, i requires 0 <= i < |p| => Values(catalog, catalog.rows[p[i]], names, parse))
  }

  function MetadataAt(catalog: Catalog, p: seq<nat>): (r: seq<Metadata>)
    requires Valid(catalog) && Positions(p, |catalog.rows|)
    ensures |r| == |p| && forall i | 0 <= i < |p| :: r[i] == MetadataOf(catalog, catalog.rows[p[i]])
  {
    seq(|p|, i requires 0 <= i < |p| => MetadataOf(catalog, catalog.rows[p[i]]))
  }

  function Weekdays(names: seq<string>, weekday: Weekday): (r: seq<int>)
    ensures |r| == |names|
  {
    seq(|names|, i requires 0 <= i < |names| => weekday(names[i]))
  }

  /** The raw data made of the given file rows: every parallel array reads the same ones. */
  function RawAt(catalog: Catalog, fold: Fold, p: seq<nat>, parse: ParseFloat, weekday: Weekday): (raw: Raw)
    requires Valid(catalog) && Positions(p, |catalog.rows|)
    ensures Aligned(raw, fold)
  {
    Raw(IdsAt(catalog, p),
        AsArray(ValuesAt(catalog, p, fold.train, parse), |fold.train|),
        AsArray(ValuesAt(catalog, p, fold.validation, parse), |fold.validation|),
        AsArray(ValuesAt(catalog, p, fold.test, parse), |fold.test|),
        None, MetadataAt(catalog, p), Weekdays(fold.validation, weekday), Weekdays(fold.test, weekday))
  }

  predicate Loadable(catalog: Catalog, fold: Fold, request: Option<seq<string>>) {
    && request != Some([])
    && AllPresent(catalog.columns, fold.train) && AllPresent(catalog.columns, fold.validation)
    && AllPresent(catalog.columns, fold.test) && "id" in catalog.columns
  }

  /** The missing column that is looked up first: training days, validation days, test days, then the id. */
  function FirstLookupMissing(catalog: Catalog, fold: Fold): Option<string> {
    var train := FirstMissing(catalog.columns, fold.train);
    var validation := FirstMissing(catalog.columns, fold.validation);
    var test := FirstMissing(catalog.columns, fold.test);
    if train.Some? then train
    else if validation.Some? then validation
    else if test.Some? then test
    else FirstMissing(catalog.columns, ["id"])
  }

  /** What the loader raises, if anything. */
  function LoadError(catalog: Catalog, fold: Fold, request: Option<seq<string>>): (error: Option<Error>)
    ensures error.None? <==> Loadable(catalog, fold, request)
  {
    if request == Some([]) then Some(EmptyRequest)
    else
      var missing := FirstLookupMissing(catalog, fold);
      if missing.Some? then Some(MissingColumn(missing.value)) else None
  }

  method ReadCells(row: seq<string>, idx: seq<nat>, parse: ParseFloat) returns (values: seq<real>)
    requires AllBelow(idx, |row|)
    ensures |values| == |idx| && forall i | 0 <= i < |idx| :: values[i] == parse(row[idx[i]])
  {
    values := [];
    for k := 0 to |idx|
      invariant |values| == k && forall i | 0 <= i < k :: values[i] == parse(row[idx[i]])
    {
      values := values + [parse(row[idx[k]])];
    }
  }

  /** What one row adds to the lists at the fold's column indices. */
  method ReadRow(catalog: Catalog, row: seq<string>, names: seq<string>, idx: seq<nat>, parse: ParseFloat)
    returns (values: seq<real>)
    requires |row| == |catalog.columns| && |idx| == |names| && AllBelow(idx, |row|)
    requires forall i | 0 <= i < |names| :: IndexOf(catalog.columns, names[i]) == Some(idx[i])
    ensures values == Values(catalog, row, names, parse)
  {
    values := ReadCells(row, idx, parse);
    forall i | 0 <= i < |names| ensures values[i] == parse(Cell(catalog, row, names[i])) {
      assert IndexOf(catalog.columns, names[i]) == Some(idx[i]);
    }
  }

  /** The five lists hold what the file rows `p` say, in that order. */
  ghost predicate InStep(catalog: Catalog, fold: Fold, p: seq<nat>, parse: ParseFloat,
                         keepIds: seq<string>, trainRows: seq<seq<real>>, valRows: seq<seq<real>>,
                         testRows: seq<seq<real>>, metadata: seq<Metadata>)
    requires Valid(catalog) && Positions(p, |catalog.rows|)
  {
    && keepIds == IdsAt(catalog, p) && metadata == MetadataAt(catalog, p)
    && trainRows == ValuesAt(catalog, p, fold.train, parse)
    && valRows == ValuesAt(catalog, p, fold.validation, parse)
    && testRows == ValuesAt(catalog, p, fold.test, parse)
  }

  lemma OneMoreRow(catalog: Catalog, fold: Fold, p: seq<nat>, k: nat, parse: ParseFloat)
    requires Valid(catalog) && Positions(p, |catalog.rows|) && k < |catalog.rows|
    ensures IdsAt(catalog, p + [k]) == IdsAt(catalog, p) + [IdOf(catalog, k)]
    ensures MetadataAt(catalog, p + [k]) == MetadataAt(catalog, p) + [MetadataOf(catalog, catalog.rows[k])]
    ensures forall names :: ValuesAt(catalog, p + [k], names, parse)
                         == ValuesAt(catalog, p, names, parse) + [Values(catalog, catalog.rows[k], names, parse)]
  {
  }

  /** The pass over the file: five lists, filled in step. */
  method ReadRows(catalog: Catalog, fold: Fold, request: Option<seq<string>>, parse: ParseFloat,
                  trainIdx: seq<nat>, valIdx: seq<nat>, testIdx: seq<nat>)
    returns (keepIds: seq<string>, trainRows: seq<seq<real>>, valRows: seq<seq<real>>, testRows: seq<seq<real>>,
      metadata: seq<Metadata>)
    requires Valid(catalog) && "id" in catalog.columns
    requires |trainIdx| == |fold.train| && AllBelow(trainIdx, |catalog.columns|)
    requires |valIdx| == |fold.validation| && AllBelow(valIdx, |catalog.columns|)
    requires |testIdx| == |fold.test| && AllBelow(testIdx, |catalog.columns|)
    requires forall i | 0 <= i < |fold.train| :: IndexOf(catalog.columns, fold.train[i]) == Some(trainIdx[i])
    requires forall i | 0 <= i < |fold.validation| :: IndexOf(catalog.columns, fold.validation[i]) == Some(valIdx[i])
    requires forall i | 0 <= i < |fold.test| :: IndexOf(catalog.columns, fold.test[i]) == Some(testIdx[i])
    ensures InStep(catalog, fold, WantedRows(catalog, request), parse, keepIds, trainRows, valRows,
      testRows, metadata)
  {
    keepIds, trainRows, valRows, testRows, metadata := [], [], [], [], [];
    for k := 0 to |catalog.rows|
      invariant InStep(catalog, fold, Where(FileIds(catalog)[..k], Wants(request)), parse, keepIds, trainRows, valRows,
        testRows, metadata)
    {
      var row := catalog.rows[k];
      WhereStep(FileIds(catalog), Wants(request), k);
      var sid := row[IndexOf(catalog.columns, "id").value];
      assert sid == IdOf(catalog, k);
      if Wanted(request, sid) {
        var train := ReadRow(catalog, row, fold.train, trainIdx, parse);
        var val := ReadRow(catalog, row, fold.validation, valIdx, parse);
        var test := ReadRow(catalog, row, fold.test, testIdx, parse);
        OneMoreRow(catalog, fold, Where(FileIds(catalog)[..k], Wants(request)), k, parse);
        keepIds := keepIds + [sid];
        trainRows := trainRows + [train];
        valRows := valRows + [val];
        testRows := testRows + [test];
        metadata := metadata + [MetadataOf(catalog, row)];
      }
    }
    assert FileIds(catalog)[..|catalog.rows|] == FileIds(catalog);
  }

  lemma Reordered(catalog: Catalog, fold: Fold, p: seq<nat>, q: seq<nat>, names: seq<string>, parse: ParseFloat)
    requires Valid(catalog) && Positions(p, |catalog.rows|) && Positions(q, |p|)
    ensures Pick(IdsAt(catalog, p), q) == IdsAt(catalog, Pick(p, q))
    ensures Pick(MetadataAt(catalog, p), q) == MetadataAt(catalog, Pick(p, q))
    ensures Pick(ValuesAt(catalog, p, names, parse), q) == ValuesAt(catalog, Pick(p, q), names, parse)
  {
  }

  /** `load`: it fails exactly on an empty request or a missing column, and otherwise yields the rows of `Loaded`. */
  method Load(catalog: Catalog, fold: Fold, request: Option<seq<string>>, parse: ParseFloat, weekday: Weekday)
    returns (r: Result<Raw>)
    requires Valid(catalog)
    ensures r.Ok? <==> Loadable(catalog, fold, request)
    ensures r.Err? ==> LoadError(catalog, fold, request) == Some(r.error)
    ensures r.Ok? ==> r.value == RawAt(catalog, fold, Loaded(catalog, request), parse, weekday)
  {
    if request == Some([]) {
      return Err(EmptyRequest);
    }
    var trainIdx := ColumnIndices(catalog.columns, fold.train);
    var valIdx := ColumnIndices(catalog.columns, fold.validation);
    var testIdx := ColumnIndices(catalog.columns, fold.test);
    if trainIdx.Err? || valIdx.Err? || testIdx.Err? {
      return Err(if trainIdx.Err? then trainIdx.error else if valIdx.Err? then valIdx.error else testIdx.error);
    }
    if "id" !in catalog.columns {
      return Err(MissingColumn("id"));
    }
    var keepIds, trainRows, valRows, testRows, metadata :=
      ReadRows(catalog, fold, request, parse, trainIdx.value, valIdx.value, testIdx.value);
    if request.Some? {
      ghost var p := WantedRows(catalog, request);
      var sortKey := Order(keepIds, Earlier(request.value));
      Reordered(catalog, fold, p, sortKey, fold.train, parse);
      Reordered(catalog, fold, p, sortKey, fold.validation, parse);
      Reordered(catalog, fold, p, sortKey, fold.test, parse);
      keepIds := Pick(keepIds, sortKey);
      trainRows := Pick(trainRows, sortKey);
      valRows := Pick(valRows, sortKey);
      testRows := Pick(testRows, sortKey);
      metadata := Pick(metadata, sortKey);
    }
    r := Ok(Raw(keepIds, AsArray(trainRows, |fold.train|), AsArray(valRows, |fold.validation|),
                AsArray(testRows, |fold.test|), None, metadata,
                Weekdays(fold.validation, weekday), Weekdays(fold.test, weekday)));
  }

  // ---------------------------------------------------------------------------
  // Request order
  // ---------------------------------------------------------------------------

  /** The requested ids that the file has, in request order. */
  function Present(request: seq<string>, ids: seq<string>): seq<string> {
    if request == [] then []
    else
      var before := Present(request[..|request| - 1], ids);
      if request[|request| - 1] in ids then before + [request[|request| - 1]] else before
  }

  lemma {:induction false} PresentMembers(request: seq<string>, ids: seq<string>)
    ensures forall x :: x in Present(request, ids) <==> x in request && x in ids
  {
    if request != [] {
      PresentMembers(request[..|request| - 1], ids);
      assert request == request[..|request| - 1] + [request[|request| - 1]];
    }
  }

  /** Places in the request grow strictly along the list. */
  ghost predicate InRequestOrder(s: seq<string>, request: seq<string>) {
    forall i, j | 0 <= i < j < |s| :: Place(request, s[i]) < Place(request, s[j])
  }

  lemma PlaceOfDistinct(request: seq<string>, i: nat)
    requires Distinct(request) && i < |request|
    ensures Place(request, request[i]) == i
  {
  }

  lemma {:induction false} PresentInOrder(request: seq<string>, ids: seq<string>, n: nat)
    requires Distinct(request) && n <= |request|
    ensures InRequestOrder(Present(request[..n], ids), request)
    ensures forall x | x in Present(request[..n], ids) :: Place(request, x) < n
  {
    if n > 0 {
      assert request[..n][..n - 1] == request[..n - 1];
      PresentInOrder(request, ids, n - 1);
      PlaceOfDistinct(request, n - 1);
      var before := Present(request[..n - 1], ids);
      assert forall i | 0 <= i < |before| :: before[i] in before;
    }
  }

  /** Two lists in request order with the same members are the same list. */
  lemma {:induction false} RequestOrderIsUnique(s: seq<string>, t: seq<string>, request: seq<string>)
    requires InRequestOrder(s, request) && InRequestOrder(t, request)
    requires forall x :: x in s <==> x in t
    ensures s == t
    decreases |s|
  {
    assert t != [] ==> t[0] in t;
    if s != [] {
      assert s[0] in t;
      assert t[0] in s;
      assert s[0] == t[0];
      forall x ensures x in s[1..] <==> x in t[1..] {
        assert x in s[1..] <==> x in s && x != s[0];
        assert x in t[1..] <==> x in t && x != t[0];
      }
      RequestOrderIsUnique(s[1..], t[1..], request);
    }
  }

  /** The loaded ids are the requested ones that exist, in the order of the request. */
  lemma LoadedInRequestOrder(catalog: Catalog, request: seq<string>)
    requires Valid(catalog) && Distinct(request) && Distinct(FileIds(catalog))
    ensures IdsAt(catalog, Loaded(catalog, Some(request))) == Present(request, FileIds(catalog))
  {
    var wanted := WantedRows(catalog, Some(request));
    var ids, order := IdsAt(catalog, wanted), Order(IdsAt(catalog, wanted), Earlier(request));
    var loaded := Pick(ids, order);
    assert IdsAt(catalog, Pick(wanted, order)) == loaded;
    EarlierIsAnOrder(request);
    OrderIsStable(ids, Earlier(request));
    SortedIdsInOrder(ids, order, request, catalog, wanted);
    LoadedMembers(catalog, request, wanted, ids, order);
    PresentMembers(request, FileIds(catalog));
    PresentInOrder(request, FileIds(catalog), |request|);
    assert request[..|request|] == request;
    RequestOrderIsUnique(loaded, Present(request, FileIds(catalog)), request);
  }

  lemma SortedIdsInOrder(ids: seq<string>, order: seq<nat>, request: seq<string>, catalog: Catalog, wanted: seq<nat>)
    requires Valid(catalog) && Distinct(FileIds(catalog))
    requires wanted == WantedRows(catalog, Some(request)) && ids == IdsAt(catalog, wanted)
    requires StableOrder(order, ids, Earlier(request))
    ensures InRequestOrder(Pick(ids, order), request)
  {
    forall i, j | 0 <= i < j < |order| ensures Place(request, ids[order[i]]) < Place(request, ids[order[j]]) {
      assert Before(ids, Earlier(request), order[i], order[j]);
      assert order[i] != order[j];
      assert wanted[order[i]] in wanted && wanted[order[j]] in wanted;
      assert FileIds(catalog)[wanted[order[i]]] != FileIds(catalog)[wanted[order[j]]];
    }
  }

  lemma LoadedMembers(catalog: Catalog, request: seq<string>, wanted: seq<nat>, ids: seq<string>, order: seq<nat>)
    requires Valid(catalog) && wanted == WantedRows(catalog, Some(request))
    requires ids == IdsAt(catalog, wanted) && StableOrder(order, ids, Earlier(request))
    ensures forall x :: x in Pick(ids, order) <==> x in request && x in FileIds(catalog)
  {
    var loaded, file := Pick(ids, order), FileIds(catalog);
    forall x | x in loaded ensures x in request && x in file {
      var i :| 0 <= i < |loaded| && loaded[i] == x;
      assert wanted[order[i]] in wanted;
      assert file[wanted[order[i]]] == x;
    }
    forall x | x in request && x in file ensures x in loaded {
      var k :| 0 <= k < |file| && file[k] == x;
      assert k in wanted;
      var w: nat :| w < |wanted| && wanted[w] == k;
      assert w in order;
      var i :| 0 <= i < |order| && order[i] == w;
      assert loaded[i] == x;
    }
  }
}
