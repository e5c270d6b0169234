/**
 The failure list an agent reads: a window of the workflow's newest traces, without the
 held-out fold, worst first. The result is exactly the worst `k` of the window; it is the
 worst `k` of the workflow for every content of the table exactly when the table fits in
 the window.
 */
module FailureRanking {
  import opened Json
  import opened Sets
  import opened StableSort
  import opened Text

  /** A fetched row; JSONB columns may arrive as text. */
  datatype Row = Row(traceId: nat, startedAt: int, events: Json, metricOutputs: Json, iterationState: Option<string>)

  datatype Snapshot = Snapshot(traceId: nat, startedAt: int, toolErrors: nat, fold: Json,
    iterationState: Option<string>)

  /** `json.loads`, with its decode error as `None`. */
  type Loads = string -> Option<Json>

  const TEST_FOLD := "test"
  const SANDBOX_ERROR := "sandbox-error"

  /** How many times `k` rows the query fetches. */
  const WINDOW := 4

  // ---------------------------------------------------------------------------
  // Rows
  // ---------------------------------------------------------------------------

  function DecodeJsonb(raw: Json, loads: Loads): Json {
    if raw.Str? then (var v := loads(raw.s); if v.Some? then v.value else Null) else raw
  }

  function FoldOf(row: Row, loads: Loads): Json {
    Get(Fields(DecodeJsonb(row.metricOutputs, loads)), "fold")
  }

  /** The row may be shown. */
  predicate Visible(row: Row, optIn: bool, loads: Loads) {
    optIn || FoldOf(row, loads) != Str(TEST_FOLD)
  }

  predicate IsToolError(e: Json) {
    e.Dict? && Get(e.fields, "type") == Str("tool_call_result") && Get(e.fields, "status") == Str("error")
  }

  function CountErrors(items: seq<Json>): nat {
    if items == [] then 0
    else CountErrors(items[..|items| - 1]) + if IsToolError(items[|items| - 1]) then 1 else 0
  }

  /** Iterating over a number raises `TypeError`; over an object or a string it finds no events. */
  predicate Iterable(row: Row, loads: Loads) {
    var events := DecodeJsonb(row.events, loads);
    !Truthy(events) || events.Arr? || events.Dict? || events.Str?
  }

  function ToolErrors(row: Row, loads: Loads): nat {
    var events := DecodeJsonb(row.events, loads);
    if events.Arr? then CountErrors(events.items) else 0
  }

  function Snap(row: Row, loads: Loads): Snapshot {
    Snapshot(row.traceId, row.startedAt, ToolErrors(row, loads), FoldOf(row, loads), row.iterationState)
  }

  function Snaps(rows: seq<Row>, loads: Loads): (r: seq<Snapshot>)
    ensures |r| == |rows| && forall i | 0 <= i < |rows| :: r[i] == Snap(rows[i], loads)
  {
    seq(|rows|, i requires 0 <= i < |rows| => Snap(rows[i], loads))
  }

  /** A column that arrives as text reads like the value it decodes to, or like nothing if it is no JSON. */
  lemma TextReadsLikeItsValue(row: Row, text: string, loads: Loads)
    requires loads(text).Some? ==> !loads(text).value.Str?
    ensures
      var v := if loads(text).Some? then loads(text).value else Null;
      && Snap(row.(events := Str(text)), loads) == Snap(row.(events := v), loads)
      && Snap(row.(metricOutputs := Str(text)), loads) == Snap(row.(metricOutputs := v), loads)
      && (Iterable(row.(events := Str(text)), loads) <==> Iterable(row.(events := v), loads))
      && forall optIn ::
           Visible(row.(metricOutputs := Str(text)), optIn, loads) <==> Visible(row.(metricOutputs := v), optIn, loads)
  {
  }

  predicate Crashed(s: Snapshot) {
    s.iterationState == Some(SANDBOX_ERROR)
  }

  /** Sandbox errors first, then more tool errors, then newer. */
  predicate Worse(a: Snapshot, b: Snapshot) {
    if Crashed(a) != Crashed(b) then Crashed(a)
    else if a.toolErrors != b.toolErrors then a.toolErrors > b.toolErrors
    else a.startedAt >= b.startedAt
  }

  /** The three keys: sandbox errors first, among equals more tool errors, among equals the newer. */
  ghost predicate ByThreeKeys(a: Snapshot, b: Snapshot) {
    var aCrashed, bCrashed := a.iterationState == Some("sandbox-error"), b.iterationState == Some("sandbox-error");
    && (bCrashed ==> aCrashed)
    && (aCrashed == bCrashed ==> a.toolErrors >= b.toolErrors)
    && (aCrashed == bCrashed && a.toolErrors == b.toolErrors ==> a.startedAt >= b.startedAt)
  }

  lemma WorseIsByThreeKeys(a: Snapshot, b: Snapshot)
    ensures Worse(a, b) <==> ByThreeKeys(a, b)
  {
  }

  lemma WorseIsAnOrder()
    ensures TotalPreorder(Worse)
  {
  }

  // ---------------------------------------------------------------------------
  // The worst k of a window
  // ---------------------------------------------------------------------------

  function MayShow(optIn: bool, loads: Loads): Row -> bool {
    (row: Row) => Visible(row, optIn, loads)
  }

  /** Positions of the rows that may be shown, in order. */
  function Shown(rows: seq<Row>, optIn: bool, loads: Loads): (p: seq<nat>)
    ensures Positions(p, |rows|)
    ensures forall x: nat :: x in p <==> x < |rows| && Visible(rows[x], optIn, loads)
    ensures forall i, j | 0 <= i < j < |p| :: p[i] < p[j]
  {
    Where(rows, MayShow(optIn, loads))
  }

  function Chosen(rows: seq<Row>, k: nat, optIn: bool, loads: Loads): (p: seq<nat>)
    ensures Positions(p, |rows|)
  {
    var shown := Shown(rows, optIn, loads);
    var order := Order(Pick(Snaps(rows, loads), shown), Worse);
    Pick(shown, if |order| <= k then order else order[..k])
  }

  /**
   `p` picks at most `k` of the rows that may be shown, worst first and ties in fetch order;
   a row that may be shown is left out only if `k` others come before it.
   */
  ghost predicate WorstAmong(snaps: seq<Snapshot>, shown: seq<nat>, k: nat, p: seq<nat>) {
    && Positions(p, |snaps|) && Positions(shown, |snaps|) && |p| <= k
    && (forall x | x in p :: x in shown)
    && Ranked(p, snaps, Worse)
    && (forall x | x in shown && x !in p ::
          |p| == k && forall i | 0 <= i < |p| :: Before(snaps, Worse, p[i], x))
  }

  ghost predicate WorstOfWindow(rows: seq<Row>, k: nat, optIn: bool, loads: Loads, p: seq<nat>) {
    WorstAmong(Snaps(rows, loads), Shown(rows, optIn, loads), k, p)
  }

  lemma PickedAreRanked(snaps: seq<Snapshot>, shown: seq<nat>, order: seq<nat>)
    requires Positions(shown, |snaps|) && forall i, j | 0 <= i < j < |shown| :: shown[i] < shown[j]
    requires Positions(order, |shown|) && Ranked(order, Pick(snaps, shown), Worse)
    ensures Ranked(Pick(shown, order), snaps, Worse)
  {
    forall i, j | 0 <= i < j < |order| ensures Before(snaps, Worse, shown[order[i]], shown[order[j]]) {
      assert Before(Pick(snaps, shown), Worse, order[i], order[j]);
    }
  }

  lemma FoundIn(s: seq<nat>, x: nat) returns (i: nat)
    requires x in s
    ensures i < |s| && s[i] == x
  {
    i :| 0 <= i < |s| && s[i] == x;
  }

  /** A shown row behind the first `k` of the order comes after each of them. */
  lemma LeftOutComesLater(snaps: seq<Snapshot>, shown: seq<nat>, order: seq<nat>, k: nat, x: nat)
    requires Positions(shown, |snaps|) && Positions(order, |shown|) && forall y: nat | y < |shown| :: y in order
    requires Ranked(Pick(shown, order), snaps, Worse)
    requires x in shown && x !in Pick(shown, if |order| <= k then order else order[..k])
    ensures x < |snaps|
    ensures var p := Pick(shown, if |order| <= k then order else order[..k]);
      |p| == k && Positions(p, |snaps|) && forall i | 0 <= i < |p| :: Before(snaps, Worse, p[i], x)
  {
    var y := FoundIn(shown, x);
    var j := FoundIn(order, y);
    var p := Pick(shown, if |order| <= k then order else order[..k]);
    assert Pick(shown, order)[j] == x;
    assert forall i | 0 <= i < |p| :: p[i] in p && p[i] == Pick(shown, order)[i];
    assert j >= |p|;
    forall i | 0 <= i < |p| ensures Before(snaps, Worse, p[i], x) {
      assert Before(snaps, Worse, Pick(shown, order)[i], Pick(shown, order)[j]);
    }
  }

  /** The first `k` of a stable order of the shown rows are the worst of the window. */
  lemma FirstAreWorst(snaps: seq<Snapshot>, shown: seq<nat>, order: seq<nat>, k: nat)
    requires Positions(shown, |snaps|) && forall i, j | 0 <= i < j < |shown| :: shown[i] < shown[j]
    requires StableOrder(order, Pick(snaps, shown), Worse)
    ensures WorstAmong(snaps, shown, k, Pick(shown, if |order| <= k then order else order[..k]))
  {
    var p := Pick(shown, if |order| <= k then order else order[..k]);
    PickedAreRanked(snaps, shown, order);
    PrefixRanked(snaps, shown, order, k);
    forall x: nat | x in shown && x !in p
      ensures |p| == k && forall i | 0 <= i < |p| :: Before(snaps, Worse, p[i], x)
    {
      LeftOutComesLater(snaps, shown, order, k, x);
    }
  }

  lemma PrefixRanked(snaps: seq<Snapshot>, shown: seq<nat>, order: seq<nat>, k: nat)
    requires Positions(shown, |snaps|) && Positions(order, |shown|) && Ranked(Pick(shown, order), snaps, Worse)
    ensures Ranked(Pick(shown, if |order| <= k then order else order[..k]), snaps, Worse)
  {
    var p := Pick(shown, if |order| <= k then order else order[..k]);
    forall i, j | 0 <= i < j < |p| ensures Before(snaps, Worse, p[i], p[j]) {
      assert Before(snaps, Worse, Pick(shown, order)[i], Pick(shown, order)[j]);
    }
  }

  lemma ChosenIsWorst(rows: seq<Row>, k: nat, optIn: bool, loads: Loads)
    ensures WorstOfWindow(rows, k, optIn, loads, Chosen(rows, k, optIn, loads))
  {
    var shown := Shown(rows, optIn, loads);
    WorseIsAnOrder();
    OrderIsStable(Pick(Snaps(rows, loads), shown), Worse);
    FirstAreWorst(Snaps(rows, loads), shown, Order(Pick(Snaps(rows, loads), shown), Worse), k);
  }

  lemma WorstExists(rows: seq<Row>, k: nat, optIn: bool, loads: Loads) returns (p: seq<nat>)
    ensures WorstOfWindow(rows, k, optIn, loads, p)
  {
    p := Chosen(rows, k, optIn, loads);
    ChosenIsWorst(rows, k, optIn, loads);
  }

  /** The specification has one solution. */
  lemma WorstIsUnique(rows: seq<Row>, k: nat, optIn: bool, loads: Loads, p: seq<nat>, q: seq<nat>)
    requires WorstOfWindow(rows, k, optIn, loads, p) && WorstOfWindow(rows, k, optIn, loads, q)
    ensures p == q
  {
    var snaps, shown := Snaps(rows, loads), Shown(rows, optIn, loads);
    WorstContains(snaps, shown, k, p, q);
    WorstContains(snaps, shown, k, q, p);
    DistinctLength(p, q, snaps);
    RankedIsUnique(p, q, snaps, Worse);
  }

  lemma WorstContains(snaps: seq<Snapshot>, shown: seq<nat>, k: nat, p: seq<nat>, q: seq<nat>)
    requires WorstAmong(snaps, shown, k, p) && WorstAmong(snaps, shown, k, q)
    ensures forall x | x in p :: x in q
  {
    if x :| x in p && x !in q {
      // all of q comes before x, so all of q is in p, which then has more than k members
      var j := FoundIn(p, x);
      forall y | y in q ensures Before(snaps, Worse, y, x) {
        var i := FoundIn(q, y);
      }
      forall y | y in shown && y !in p ensures Before(snaps, Worse, x, y) {
        assert Before(snaps, Worse, p[j], y);
      }
      assert forall y: nat | y < |snaps| && Before(snaps, Worse, y, x) :: !Before(snaps, Worse, x, y);
      DistinctSubset(q, p, snaps, x);
    }
  }

  function Members(p: seq<nat>): (s: set<nat>)
    ensures forall x :: x in s <==> x in p
  {
    set x | x in p
  }

  lemma {:induction false} RankedAreDistinct(p: seq<nat>, snaps: seq<Snapshot>)
    requires Positions(p, |snaps|) && Ranked(p, snaps, Worse)
    ensures |Members(p)| == |p|
  {
    if p == [] {
      assert Members(p) == {};
    } else {
      RankedAreDistinct(p[1..], snaps);
      TailMembers(p, snaps, Worse, p[0]);
      assert Members(p) == {p[0]} + Members(p[1..]);
    }
  }

  lemma DistinctLength(p: seq<nat>, q: seq<nat>, snaps: seq<Snapshot>)
    requires Positions(p, |snaps|) && Ranked(p, snaps, Worse)
    requires Positions(q, |snaps|) && Ranked(q, snaps, Worse)
    requires forall x :: x in p <==> x in q
    ensures |p| == |q|
  {
    RankedAreDistinct(p, snaps);
    RankedAreDistinct(q, snaps);
    assert Members(p) == Members(q);
  }

  lemma DistinctSubset(q: seq<nat>, p: seq<nat>, snaps: seq<Snapshot>, x: nat)
    requires Positions(p, |snaps|) && Ranked(p, snaps, Worse)
    requires Positions(q, |snaps|) && Ranked(q, snaps, Worse)
    requires x in p && x !in q && forall y | y in q :: y in p
    ensures |q| < |p|
  {
    RankedAreDistinct(p, snaps);
    RankedAreDistinct(q, snaps);
    SubsetSize(Members(q) + {x}, Members(p));
  }

  // ---------------------------------------------------------------------------
  // analyze_failures
  // ---------------------------------------------------------------------------

  datatype Outcome = Failures(snapshots: seq<Snapshot>) | TypeFailure

  /** `_count_tool_errors`. */
  /** A result of a tool call that ended in an error. */
  ghost predicate FailedResult(e: Json) {
    && e.Dict? && "type" in e.fields && "status" in e.fields
    && e.fields["type"] == Str("tool_call_result") && e.fields["status"] == Str("error")
  }

  ghost function FailedAt(items: seq<Json>): set<nat> {
    set i: nat | i < |items| && FailedResult(items[i])
  }

  lemma {:induction false} ErrorsAreFailedResults(items: seq<Json>)
    ensures CountErrors(items) == |FailedAt(items)|
  {
    if items != [] {
      var rest, n := items[..|items| - 1], |items| - 1;
      ErrorsAreFailedResults(rest);
      assert FailedAt(items) == FailedAt(rest) + if FailedResult(items[n]) then {n} else {};
    }
  }

  method CountToolErrors(items: seq<Json>) returns (n: nat)
    ensures n == CountErrors(items) == |FailedAt(items)|
  {
    ErrorsAreFailedResults(items);
    n := 0;
    for i := 0 to |items|
      invariant n == CountErrors(items[..i])
    {
      assert items[..i + 1][..i] == items[..i];
      if IsToolError(items[i]) {
        n := n + 1;
      }
    }
    assert items[..|items|] == items;
  }

  /** The snapshots of the rows that may be shown, in fetch order. */
  ghost function ShownSnaps(rows: seq<Row>, optIn: bool, loads: Loads): seq<Snapshot> {
    Pick(Snaps(rows, loads), Shown(rows, optIn, loads))
  }

  lemma ShownStep(rows: seq<Row>, i: nat, optIn: bool, loads: Loads)
    requires i < |rows|
    ensures ShownSnaps(rows[..i + 1], optIn, loads)
         == if Visible(rows[i], optIn, loads) then ShownSnaps(rows[..i], optIn, loads) + [Snap(rows[i], loads)]
            else ShownSnaps(rows[..i], optIn, loads)
  {
    assert rows[..i + 1] == rows[..i] + [rows[i]];
    ShownAppend(rows[..i], rows[i], optIn, loads);
  }

  lemma ShownAppend(prev: seq<Row>, row: Row, optIn: bool, loads: Loads)
    ensures ShownSnaps(prev + [row], optIn, loads)
         == if Visible(row, optIn, loads) then ShownSnaps(prev, optIn, loads) + [Snap(row, loads)]
            else ShownSnaps(prev, optIn, loads)
  {
    var rows := prev + [row];
    assert rows[..|prev|] == prev && rows[..|prev| + 1] == rows;
    WhereStep(rows, MayShow(optIn, loads), |prev|);
    LastRow(prev, row, Shown(prev, optIn, loads), loads);
  }

  lemma LastRow(prev: seq<Row>, row: Row, p: seq<nat>, loads: Loads)
    requires Positions(p, |prev|)
    ensures Positions(p, |prev + [row]|)
    ensures Pick(Snaps(prev + [row], loads), p) == Pick(Snaps(prev, loads), p)
    ensures Positions(p + [|prev|], |prev + [row]|)
    ensures Pick(Snaps(prev + [row], loads), p + [|prev|]) == Pick(Snaps(prev, loads), p) + [Snap(row, loads)]
  {
  }

  /** Sorting the snapshots and cutting is choosing positions and looking them up. */
  lemma FirstOfOrder(rows: seq<Row>, k: nat, optIn: bool, loads: Loads)
    ensures
      var snapshots := ShownSnaps(rows, optIn, loads);
      var worst := Pick(snapshots, Order(snapshots, Worse));
      Pick(Snaps(rows, loads), Chosen(rows, k, optIn, loads)) == if |worst| <= k then worst else worst[..k]
  {
  }

  datatype Reading = Skipped | Taken(snapshot: Snapshot) | Raised

  function ReadingOf(row: Row, optIn: bool, loads: Loads): Reading {
    if !Visible(row, optIn, loads) then Skipped
    else if Iterable(row, loads) then Taken(Snap(row, loads))
    else Raised
  }

  /** The body of the loop over the fetched rows. */
  method ReadRow(row: Row, optIn: bool, loads: Loads) returns (r: Reading)
    ensures r == ReadingOf(row, optIn, loads)
  {
    var metrics := DecodeJsonb(row.metricOutputs, loads);
    var fold := if metrics.Dict? then Get(metrics.fields, "fold") else Null;
    if !optIn && fold == Str(TEST_FOLD) {
      return Skipped;
    }
    var decoded := DecodeJsonb(row.events, loads);
    var events := if Truthy(decoded) then decoded else Arr([]);
    var toolErrors := 0;
    if events.Arr? {
      toolErrors := CountToolErrors(events.items);
    } else if !events.Dict? && !events.Str? {
      return Raised;
    }
    r := Taken(Snapshot(row.traceId, row.startedAt, toolErrors, fold, row.iterationState));
  }

  /** Reading some row raises. */
  ghost predicate SomeRaises(rows: seq<Row>, optIn: bool, loads: Loads) {
    exists x :: 0 <= x < |rows| && ReadingOf(rows[x], optIn, loads) == Raised
  }

  lemma NextReading(rows: seq<Row>, i: nat, optIn: bool, loads: Loads)
    requires i < |rows| && !SomeRaises(rows[..i], optIn, loads)
    ensures ReadingOf(rows[i], optIn, loads) == Raised ==> SomeRaises(rows, optIn, loads)
    ensures ReadingOf(rows[i], optIn, loads) != Raised ==> !SomeRaises(rows[..i + 1], optIn, loads)
  {
    forall x | 0 <= x < i ensures ReadingOf(rows[x], optIn, loads) != Raised {
      assert rows[..i][x] == rows[x];
    }
  }

  /** The loop over the fetched rows; nothing if it raises. */
  method CollectShown(rows: seq<Row>, optIn: bool, loads: Loads) returns (r: Option<seq<Snapshot>>)
    ensures r.None? <==> SomeRaises(rows, optIn, loads)
    ensures r.Some? ==> r.value == ShownSnaps(rows, optIn, loads)
  {
    var snapshots: seq<Snapshot> := [];
    for i := 0 to |rows|
      invariant snapshots == ShownSnaps(rows[..i], optIn, loads)
      invariant !SomeRaises(rows[..i], optIn, loads)
    {
      ShownStep(rows, i, optIn, loads);
      NextReading(rows, i, optIn, loads);
      var reading := ReadRow(rows[i], optIn, loads);
      match reading
      case Skipped =>
      case Raised => return None;
      case Taken(snapshot) => snapshots := snapshots + [snapshot];
    }
    assert rows[..|rows|] == rows;
    r := Some(snapshots);
  }

  method AnalyzeFailures(rows: seq<Row>, k: nat, optIn: bool, loads: Loads) returns (outcome: Outcome)
    ensures outcome == TypeFailure <==> exists x ::
      0 <= x < |rows| && Visible(rows[x], optIn, loads) && !Iterable(rows[x], loads)
    ensures outcome.Failures? ==>
      exists p :: WorstOfWindow(rows, k, optIn, loads, p) && outcome.snapshots == Pick(Snaps(rows, loads), p)
    ensures outcome.Failures? ==> forall i, j | 0 <= i < j < |outcome.snapshots| ::
      ByThreeKeys(outcome.snapshots[i], outcome.snapshots[j])
  {
    var snapshots := CollectShown(rows, optIn, loads);
    if snapshots.None? {
      return TypeFailure;
    }
    var worst := Pick(snapshots.value, Order(snapshots.value, Worse));
    outcome := Failures(if |worst| <= k then worst else worst[..k]);
    ChosenIsWorst(rows, k, optIn, loads);
    FirstOfOrder(rows, k, optIn, loads);
    WorstAreSorted(rows, k, optIn, loads, Chosen(rows, k, optIn, loads));
  }

  lemma WorstAreSorted(rows: seq<Row>, k: nat, optIn: bool, loads: Loads, p: seq<nat>)
    requires WorstOfWindow(rows, k, optIn, loads, p)
    ensures var out := Pick(Snaps(rows, loads), p);
      forall i, j | 0 <= i < j < |out| :: ByThreeKeys(out[i], out[j])
  {
    var out := Pick(Snaps(rows, loads), p);
    forall i, j | 0 <= i < j < |out| ensures ByThreeKeys(out[i], out[j]) {
      assert Before(Snaps(rows, loads), Worse, p[i], p[j]);
      WorseIsByThreeKeys(out[i], out[j]);
    }
  }

  /** The held-out fold stays hidden, and the list is sorted. */
  lemma NothingHeldOutAndSorted(rows: seq<Row>, k: nat, loads: Loads, p: seq<nat>)
    requires WorstOfWindow(rows, k, false, loads, p)
    ensures var out := Pick(Snaps(rows, loads), p);
      && (forall s | s in out :: s.fold != Str("test"))
      && (forall i, j | 0 <= i < j < |out| :: ByThreeKeys(out[i], out[j]))
  {
    var out := Pick(Snaps(rows, loads), p);
    forall i | 0 <= i < |out| ensures out[i].fold != Str("test") {
      assert p[i] in p;
    }
    WorstAreSorted(rows, k, false, loads, p);
  }

  // ---------------------------------------------------------------------------
  // The window and the table
  // ---------------------------------------------------------------------------

  /** What `ORDER BY started_at DESC LIMIT limit` may return, as positions in the table. */
  ghost predicate IsWindow(table: seq<Row>, w: seq<nat>, limit: nat) {
    && Positions(w, |table|) && |w| == (if |table| <= limit then |table| else limit)
    && (forall i, j | 0 <= i < j < |w| :: w[i] != w[j] && table[w[i]].startedAt >= table[w[j]].startedAt)
    && (forall i, x: nat | 0 <= i < |w| && x < |table| && x !in w :: table[w[i]].startedAt >= table[x].startedAt)
  }

  /** `g` picks worst rows of the whole table: no visible row outside it ranks strictly before one inside. */
  ghost predicate WorstOfTable(table: seq<Row>, k: nat, optIn: bool, loads: Loads, g: seq<nat>) {
    && Positions(g, |table|) && |g| <= k
    && (forall x | x in g :: Visible(table[x], optIn, loads))
    && (forall x: nat | x < |table| && Visible(table[x], optIn, loads) && x !in g ::
          |g| == k && forall i | 0 <= i < |g| :: Worse(Snap(table[g[i]], loads), Snap(table[x], loads)))
  }

  /** For every table of `n` traces and everything the query may return, the answer is the table's worst. */
  ghost predicate AlwaysGlobal(n: nat, k: nat, optIn: bool, loads: Loads) {
    forall table: seq<Row>, w: seq<nat>, p: seq<nat> |
      && |table| == n && IsWindow(table, w, WINDOW * k)
      && WorstOfWindow(Pick(table, w), k, optIn, loads, p) ::
      WorstOfTable(table, k, optIn, loads, Pick(w, p))
  }

  function Newest(limit: nat): (w: seq<nat>)
    ensures |w| == limit && forall i | 0 <= i < limit :: w[i] == i
  {
    seq(limit, i requires 0 <= i => i)
  }

  lemma FullWindowHasAll(w: seq<nat>, n: nat)
    requires Positions(w, n) && |w| >= n
    requires forall i, j | 0 <= i < j < |w| :: w[i] != w[j]
    ensures forall x: nat | x < n :: x in w
  {
    MembersOfDistinct(w);
    MembersOfDistinct(Newest(n));
    forall x: nat | x < n ensures x in w {
      if x !in w {
        assert Newest(n)[x] == x;
        forall y | y in w ensures y in Newest(n) {
          assert Newest(n)[y] == y;
        }
        SubsetSize(Members(w) + {x}, Members(Newest(n)));
        assert false;
      }
    }
  }

  lemma {:induction false} MembersOfDistinct(w: seq<nat>)
    requires forall i, j | 0 <= i < j < |w| :: w[i] != w[j]
    ensures |Members(w)| == |w|
  {
    if w == [] {
      assert Members(w) == {};
    } else {
      MembersOfDistinct(w[1..]);
      assert Members(w) == {w[0]} + Members(w[1..]);
    }
  }

  lemma SmallTableIsGlobal(table: seq<Row>, w: seq<nat>, p: seq<nat>, k: nat, optIn: bool, loads: Loads)
    requires |table| <= WINDOW * k && IsWindow(table, w, WINDOW * k)
    requires WorstOfWindow(Pick(table, w), k, optIn, loads, p)
    ensures WorstOfTable(table, k, optIn, loads, Pick(w, p))
  {
    FullWindowHasAll(w, |table|);
    var rows, g := Pick(table, w), Pick(w, p);
    forall x: nat | x < |table| && Visible(table[x], optIn, loads) && x !in g
      ensures |g| == k && forall i | 0 <= i < |g| :: Worse(Snap(table[g[i]], loads), Snap(table[x], loads))
    {
      var y := FoundIn(w, x);
      assert forall j | 0 <= j < |p| :: g[j] == w[p[j]] && g[j] in g;
      forall i | 0 <= i < |g| ensures Worse(Snap(table[g[i]], loads), Snap(table[x], loads)) {
        assert Before(Snaps(rows, loads), Worse, p[i], y);
      }
    }
  }

  /** `n` clean traces, newest first, except that the oldest one crashed the sandbox. */
  function OldCrash(n: nat): (table: seq<Row>)
    ensures |table| == n && forall i | 0 <= i < n :: table[i].startedAt == n - i
  {
    seq(n, i requires 0 <= i < n => Row(i, n - i, Null, Null, if i == n - 1 then Some(SANDBOX_ERROR) else None))
  }

  lemma OldCrashFacts(n: nat, i: nat, optIn: bool, loads: Loads)
    requires i < n
    ensures Visible(OldCrash(n)[i], optIn, loads)
    ensures Crashed(Snap(OldCrash(n)[i], loads)) <==> i == n - 1
  {
  }

  lemma NewestIsWindow(n: nat, limit: nat)
    requires n > limit
    ensures IsWindow(OldCrash(n), Newest(limit), limit)
  {
    var table, w := OldCrash(n), Newest(limit);
    forall x: nat | x < limit ensures x in w {
      assert w[x] == x;
    }
  }

  lemma ShowsSomething(rows: seq<Row>, k: nat, optIn: bool, loads: Loads, p: seq<nat>)
    requires WorstOfWindow(rows, k, optIn, loads, p) && k >= 1
    requires rows != [] && Visible(rows[0], optIn, loads)
    ensures p != []
  {
    assert 0 in p || |p| == k;
  }

  lemma BigTableMissesCrash(n: nat, k: nat, optIn: bool, loads: Loads)
    requires k >= 1 && n > WINDOW * k
    ensures !AlwaysGlobal(n, k, optIn, loads)
  {
    var table, w := OldCrash(n), Newest(WINDOW * k);
    NewestIsWindow(n, WINDOW * k);
    var rows := Pick(table, w);
    var p := WorstExists(rows, k, optIn, loads);
    var g := Pick(w, p);
    OldCrashFacts(n, 0, optIn, loads);
    ShowsSomething(rows, k, optIn, loads, p);
    OldCrashFacts(n, g[0], optIn, loads);
    OldCrashFacts(n, n - 1, optIn, loads);
    CrashOutside(table, k, optIn, loads, g, n - 1);
  }

  lemma CrashOutside(table: seq<Row>, k: nat, optIn: bool, loads: Loads, g: seq<nat>, x: nat)
    requires Positions(g, |table|) && g != [] && x < |table| && x !in g
    requires Visible(table[x], optIn, loads) && Crashed(Snap(table[x], loads)) && !Crashed(Snap(table[g[0]], loads))
    ensures !WorstOfTable(table, k, optIn, loads, g)
  {
    assert !Worse(Snap(table[g[0]], loads), Snap(table[x], loads));
  }

  /** The answer is the workflow's worst `k` whatever the traces hold, exactly when there are at most `4k` of them. */
  lemma GlobalIffTableFits(n: nat, k: nat, optIn: bool, loads: Loads)
    requires k >= 1
    ensures AlwaysGlobal(n, k, optIn, loads) <==> n <= 4 * k
  {
    if n > WINDOW * k {
      BigTableMissesCrash(n, k, optIn, loads);
    } else {
      forall table: seq<Row>, w: seq<nat>, p: seq<nat> |
        && |table| == n && IsWindow(table, w, WINDOW * k)
        && WorstOfWindow(Pick(table, w), k, optIn, loads, p)
        ensures WorstOfTable(table, k, optIn, loads, Pick(w, p))
      {
        SmallTableIsGlobal(table, w, p, k, optIn, loads);
      }
    }
  }
}
