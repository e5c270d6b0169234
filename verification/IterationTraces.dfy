/**
 The traces an iteration leaves behind: one row per case, the sample ids each failure
 cluster points at, and what the failure list makes of those rows.
 */
module IterationTraces {
  import opened FailureRanking
  import opened Json
  import opened StableSort

  datatype CaseResult = CaseResult(caseId: string, predicted: bool, expected: bool, passed: bool, isTestFold: bool,
    rationale: Json)

  datatype TraceRow = TraceRow(id: nat, caseId: string, events: Json, metricOutputs: Json)

  /** The fresh ids of one trace: its own, as it prints, and those of its two events. */
  datatype TraceIds = TraceIds(trace: nat, shown: string, start: string, result: string)

  /** What all traces of an iteration share; instants are as `isoformat` prints them. */
  datatype Span = Span(iterationId: string, startedAt: string, endedAt: string, durationMs: int)

  function MetricOutputs(o: CaseResult): Json {
    Dict(map["case_id" := Str(o.caseId), "predicted" := Bool(o.predicted), "expected" := Bool(o.expected),
             "passed" := Bool(o.passed), "is_test_fold" := Bool(o.isTestFold), "rationale" := o.rationale])
  }

  /** What the two events of a trace have in common. */
  function EventBase(o: CaseResult, ids: TraceIds, span: Span): Object {
    map["trace_id" := Str(ids.shown), "iteration_id" := Str(span.iterationId), "parent_span_id" := Null,
        "call_id" := Str("call-" + o.caseId), "name" := Str("predict_label")]
  }

  function StartFields(o: CaseResult, ids: TraceIds, span: Span): Object {
    map["event_id" := Str(ids.start), "timestamp" := Str(span.startedAt), "type" := Str("tool_call_start"),
        "args" := Dict(map["case_id" := Str(o.caseId)])]
  }

  function ResultFields(o: CaseResult, ids: TraceIds, span: Span): Object {
    map["event_id" := Str(ids.result), "timestamp" := Str(span.endedAt), "type" := Str("tool_call_result"),
        "status" := Str("ok"), "output" := MetricOutputs(o),
        "duration_ms" := Int(if span.durationMs < 0 then 0 else span.durationMs),
        "error" := Null, "error_class" := Null]
  }

  /** `_trace_events_for_outcome`: the forced prediction call starts and succeeds. */
  function EventsFor(o: CaseResult, ids: TraceIds, span: Span): Json {
    var base := EventBase(o, ids, span);
    Arr([Dict(base + StartFields(o, ids, span)), Dict(base + ResultFields(o, ids, span))])
  }

  /** What a persisted row says, key by key. */
  ghost predicate Says(row: TraceRow, o: CaseResult, ids: TraceIds, span: Span) {
    && row.id == ids.trace && row.caseId == o.caseId && row.metricOutputs.Dict?
    && row.events.Arr? && |row.events.items| == 2 && row.events.items[0].Dict? && row.events.items[1].Dict?
    && Verdict(row.metricOutputs.fields, o) && row.metricOutputs.fields.Keys == VERDICT_KEYS
    && var start, result := row.events.items[0].fields, row.events.items[1].fields;
       && CallOf(start, o, ids, span) && CallOf(result, o, ids, span)
       && Get(start, "type") == Str("tool_call_start") && Get(start, "event_id") == Str(ids.start)
       && Get(start, "timestamp") == Str(span.startedAt)
       && Get(start, "args") == Dict(map["case_id" := Str(o.caseId)])
       && "error" in result && result["error"] == Null && "error_class" in result && result["error_class"] == Null
       && Get(result, "type") == Str("tool_call_result") && Get(result, "event_id") == Str(ids.result)
       && Get(result, "timestamp") == Str(span.endedAt) && Get(result, "status") == Str("ok")
       && Get(result, "output").Dict? && Verdict(Get(result, "output").fields, o)
       && Get(result, "duration_ms") == Int(if span.durationMs > 0 then span.durationMs else 0)
  }

  const VERDICT_KEYS := {"case_id", "predicted", "expected", "passed", "is_test_fold", "rationale"}

  ghost predicate Verdict(fields: Object, o: CaseResult) {
    && Get(fields, "case_id") == Str(o.caseId) && Get(fields, "rationale") == o.rationale
    && Get(fields, "predicted") == Bool(o.predicted) && Get(fields, "expected") == Bool(o.expected)
    && Get(fields, "passed") == Bool(o.passed) && Get(fields, "is_test_fold") == Bool(o.isTestFold)
  }

  ghost predicate CallOf(event: Object, o: CaseResult, ids: TraceIds, span: Span) {
    && Get(event, "trace_id") == Str(ids.shown) && Get(event, "iteration_id") == Str(span.iterationId)
    && Get(event, "call_id") == Str("call-" + o.caseId) && Get(event, "name") == Str("predict_label")
    && "parent_span_id" in event && event["parent_span_id"] == Null
  }

  lemma MetricsSay(o: CaseResult)
    ensures MetricOutputs(o).Dict? && Verdict(MetricOutputs(o).fields, o)
    ensures MetricOutputs(o).fields.Keys == VERDICT_KEYS
  {
    assert |"case_id"| == 7 && |"predicted"| == 9 && |"expected"| == 8 && |"passed"| == 6;
    assert |"is_test_fold"| == 12 && |"rationale"| == 9 && "predicted"[0] == 'p' && "rationale"[0] == 'r';
  }

  function RowFor(o: CaseResult, ids: TraceIds, span: Span): TraceRow {
    TraceRow(ids.trace, o.caseId, EventsFor(o, ids, span), MetricOutputs(o))
  }

  lemma BaseSays(o: CaseResult, ids: TraceIds, span: Span)
    ensures CallOf(EventBase(o, ids, span), o, ids, span)
  {
    assert |"trace_id"| == 8 && |"iteration_id"| == 12 && |"parent_span_id"| == 14 && |"call_id"| == 7 && |"name"| == 4;
  }

  /** The keys that both events share are not overwritten. */
  lemma BaseIsKept(o: CaseResult, ids: TraceIds, span: Span, more: Object)
    requires forall key | key in {"trace_id", "iteration_id", "parent_span_id", "call_id", "name"} :: key !in more
    ensures CallOf(EventBase(o, ids, span) + more, o, ids, span)
  {
    BaseSays(o, ids, span);
    var base := EventBase(o, ids, span);
    forall key | key in {"trace_id", "iteration_id", "parent_span_id", "call_id", "name"}
      ensures Get(base + more, key) == Get(base, key)
    {
    }
  }

  lemma StartKeys(o: CaseResult, ids: TraceIds, span: Span)
    ensures forall key | key in {"trace_id", "iteration_id", "parent_span_id", "call_id", "name"} ::
      key !in StartFields(o, ids, span)
  {
    assert |"event_id"| == 8 && |"timestamp"| == 9 && |"type"| == 4 && |"args"| == 4;
    assert |"trace_id"| == 8 && |"iteration_id"| == 12 && |"parent_span_id"| == 14 && |"call_id"| == 7 && |"name"| == 4;
    assert "type"[0] == 't' && "args"[0] == 'a' && "name"[0] == 'n' && "event_id"[0] == 'e' && "trace_id"[0] == 't';
  }

  lemma StartSays(o: CaseResult, ids: TraceIds, span: Span)
    ensures
      var start := StartFields(o, ids, span);
      && "type" in start && start["type"] == Str("tool_call_start")
      && "event_id" in start && start["event_id"] == Str(ids.start)
      && "timestamp" in start && start["timestamp"] == Str(span.startedAt)
      && "args" in start && start["args"] == Dict(map["case_id" := Str(o.caseId)])
  {
    assert |"event_id"| == 8 && |"timestamp"| == 9 && |"type"| == 4 && |"args"| == 4;
    assert "type"[0] == 't' && "args"[0] == 'a';
  }

  lemma ResultKeys(o: CaseResult, ids: TraceIds, span: Span)
    ensures forall key | key in {"trace_id", "iteration_id", "parent_span_id", "call_id", "name"} ::
      key !in ResultFields(o, ids, span)
  {
    assert |"event_id"| == 8 && |"timestamp"| == 9 && |"type"| == 4 && |"status"| == 6 && |"output"| == 6;
    assert |"duration_ms"| == 11 && |"error"| == 5 && |"error_class"| == 11;
    assert |"trace_id"| == 8 && |"iteration_id"| == 12 && |"parent_span_id"| == 14 && |"call_id"| == 7 && |"name"| == 4;
    assert "type"[0] == 't' && "name"[0] == 'n' && "event_id"[0] == 'e' && "trace_id"[0] == 't';
  }

  lemma ResultSays(o: CaseResult, ids: TraceIds, span: Span)
    ensures
      var result := ResultFields(o, ids, span);
      && "type" in result && result["type"] == Str("tool_call_result")
      && "event_id" in result && result["event_id"] == Str(ids.result)
      && "timestamp" in result && result["timestamp"] == Str(span.endedAt)
      && "status" in result && result["status"] == Str("ok")
      && "output" in result && result["output"] == MetricOutputs(o)
      && "error" in result && result["error"] == Null && "error_class" in result && result["error_class"] == Null
      && "duration_ms" in result
      && result["duration_ms"] == Int(if span.durationMs > 0 then span.durationMs else 0)
  {
    assert |"event_id"| == 8 && |"timestamp"| == 9 && |"type"| == 4 && |"status"| == 6 && |"output"| == 6;
    assert |"duration_ms"| == 11 && |"error"| == 5 && |"error_class"| == 11;
    assert "status"[0] == 's' && "output"[0] == 'o' && "duration_ms"[0] == 'd' && "error_class"[0] == 'e';
  }

  lemma RowSays(o: CaseResult, ids: TraceIds, span: Span)
    ensures Says(RowFor(o, ids, span), o, ids, span)
  {
    MetricsSay(o);
    StartKeys(o, ids, span);
    StartSays(o, ids, span);
    BaseIsKept(o, ids, span, StartFields(o, ids, span));
    ResultKeys(o, ids, span);
    ResultSays(o, ids, span);
    BaseIsKept(o, ids, span, ResultFields(o, ids, span));
  }

  function RowsFor(outcomes: seq<CaseResult>, ids: seq<TraceIds>, span: Span): (rows: seq<TraceRow>)
    requires |ids| == |outcomes|
    ensures |rows| == |outcomes| && forall i | 0 <= i < |rows| :: rows[i] == RowFor(outcomes[i], ids[i], span)
  {
    seq(|outcomes|, i requires 0 <= i < |outcomes| => RowFor(outcomes[i], ids[i], span))
  }

  /** The row is one this runner writes. */
  ghost predicate FromRunner(row: TraceRow) {
    exists o: CaseResult, ids: TraceIds, span: Span :: row == RowFor(o, ids, span)
  }

  /** One row per outcome, which it says key by key. */
  ghost predicate AllSay(rows: seq<TraceRow>, outcomes: seq<CaseResult>, ids: seq<TraceIds>, span: Span) {
    && |rows| == |outcomes| == |ids|
    && forall i | 0 <= i < |rows| :: FromRunner(rows[i]) && Says(rows[i], outcomes[i], ids[i], span)
  }

  lemma RowsForSay(outcomes: seq<CaseResult>, ids: seq<TraceIds>, span: Span)
    requires |ids| == |outcomes|
    ensures AllSay(RowsFor(outcomes, ids, span), outcomes, ids, span)
  {
    forall i | 0 <= i < |outcomes|
      ensures FromRunner(RowFor(outcomes[i], ids[i], span))
      ensures Says(RowFor(outcomes[i], ids[i], span), outcomes[i], ids[i], span)
    {
      RowSays(outcomes[i], ids[i], span);
    }
  }

  /** `byCase` maps exactly the cases of `rows`, each to its newest row. */
  ghost predicate NewestByCase(rows: seq<TraceRow>, byCase: map<string, nat>) {
    && (forall c :: c in byCase <==> exists i :: 0 <= i < |rows| && rows[i].caseId == c)
    && (forall i | 0 <= i < |rows| && (forall j | i < j < |rows| :: rows[j].caseId != rows[i].caseId) ::
          rows[i].caseId in byCase && byCase[rows[i].caseId] == rows[i].id)
  }

  /** The dictionary after the given rows were inserted. */
  function ByCase(rows: seq<TraceRow>): map<string, nat> {
    if rows == [] then map[] else ByCase(rows[..|rows| - 1])[rows[|rows| - 1].caseId := rows[|rows| - 1].id]
  }

  class TraceTable {
    var rows: seq<TraceRow>

    constructor ()
      ensures rows == []
    {
      rows := [];
    }

    /** `_persist_traces`; the fresh ids are a parameter. */
    method PersistTraces(outcomes: seq<CaseResult>, ids: seq<TraceIds>, span: Span)
      returns (byCase: map<string, nat>)
      requires |ids| == |outcomes|
      modifies this
      ensures rows == old(rows) + RowsFor(outcomes, ids, span)
      ensures byCase == ByCase(RowsFor(outcomes, ids, span))
      ensures AllSay(rows[|old(rows)|..], outcomes, ids, span)
    {
      byCase := map[];
      ghost var all := RowsFor(outcomes, ids, span);
      for i := 0 to |outcomes|
        invariant rows == old(rows) + all[..i]
        invariant byCase == ByCase(all[..i])
      {
        assert all[..i + 1][..i] == all[..i] && all[..i + 1] == all[..i] + [all[i]];
        var row := RowFor(outcomes[i], ids[i], span);
        rows := rows + [row];
        byCase := byCase[outcomes[i].caseId := row.id];
      }
      assert all[..|outcomes|] == all;
      RowsForSay(outcomes, ids, span);
      assert rows[|old(rows)|..] == all;
    }
  }

  /** The dictionary holds the newest trace of every case. */
  lemma {:induction false} ByCaseIsNewest(rows: seq<TraceRow>)
    ensures NewestByCase(rows, ByCase(rows))
  {
    if rows != [] {
      var rest, last := rows[..|rows| - 1], rows[|rows| - 1];
      ByCaseIsNewest(rest);
      OneMoreTrace(rest, ByCase(rest), last, rows);
    }
  }

  lemma OneMoreTrace(rows: seq<TraceRow>, byCase: map<string, nat>, row: TraceRow, more: seq<TraceRow>)
    requires NewestByCase(rows, byCase) && more == rows + [row]
    ensures NewestByCase(more, byCase[row.caseId := row.id])
  {
    var now := byCase[row.caseId := row.id];
    forall c ensures c in now <==> exists i :: 0 <= i < |more| && more[i].caseId == c {
      if c == row.caseId {
        assert more[|rows|].caseId == c;
      } else if c in byCase {
        var i :| 0 <= i < |rows| && rows[i].caseId == c;
        assert more[i].caseId == c;
      }
    }
    forall i | 0 <= i < |more| && (forall j | i < j < |more| :: more[j].caseId != more[i].caseId)
      ensures more[i].caseId in now && now[more[i].caseId] == more[i].id
    {
      if i < |rows| {
        assert more[|rows|].caseId != more[i].caseId;
        assert forall j | i < j < |rows| :: rows[j] == more[j];
      }
    }
  }

  // ---------------------------------------------------------------------------
  // Cluster samples
  // ---------------------------------------------------------------------------

  const SAMPLE_LIMIT := 5

  function FirstMembers(members: seq<nat>): seq<nat> {
    if |members| <= SAMPLE_LIMIT then members else members[..SAMPLE_LIMIT]
  }

  /** The member points at a snapshot whose case was traced. */
  predicate Resolves(member: nat, snapshotCases: seq<string>, byCase: map<string, nat>) {
    member < |snapshotCases| && snapshotCases[member] in byCase
  }

  function Samples(members: seq<nat>, snapshotCases: seq<string>, byCase: map<string, nat>): seq<nat> {
    if members == [] then []
    else
      var before, last := Samples(members[..|members| - 1], snapshotCases, byCase), members[|members| - 1];
      if Resolves(last, snapshotCases, byCase) then before + [byCase[snapshotCases[last]]] else before
  }

  /** `_sample_trace_ids_for_cluster`. */
  method SampleTraceIds(members: seq<nat>, snapshotCases: seq<string>, byCase: map<string, nat>) returns (out: seq<nat>)
    ensures out == Samples(if |members| <= 5 then members else members[..5], snapshotCases, byCase)
    ensures |out| <= 5
  {
    out := [];
    var first := FirstMembers(members);
    for i := 0 to |first|
      invariant out == Samples(first[..i], snapshotCases, byCase)
      invariant |out| <= i
    {
      assert first[..i + 1][..i] == first[..i];
      var idx := first[i];
      if idx < |snapshotCases| && snapshotCases[idx] in byCase {
        out := out + [byCase[snapshotCases[idx]]];
      }
    }
    assert first[..|first|] == first;
  }

  lemma {:induction false} NewestRowOf(rows: seq<TraceRow>, byCase: map<string, nat>, c: string) returns (i: nat)
    requires NewestByCase(rows, byCase) && c in byCase
    ensures IsNewestOf(rows, i, c, byCase[c])
  {
    i := LastWithCase(rows, c);
  }

  lemma {:induction false} LastWithCase(rows: seq<TraceRow>, c: string) returns (i: nat)
    requires exists k :: 0 <= k < |rows| && rows[k].caseId == c
    ensures i < |rows| && rows[i].caseId == c && forall j | i < j < |rows| :: rows[j].caseId != c
  {
    if rows[|rows| - 1].caseId == c {
      i := |rows| - 1;
    } else {
      var k :| 0 <= k < |rows| && rows[k].caseId == c;
      assert rows[..|rows| - 1][k].caseId == c;
      i := LastWithCase(rows[..|rows| - 1], c);
    }
  }

  /** Every sampled id is the id of the newest trace of a member's case. */
  lemma {:induction false} SamplesAreMemberTraces(rows: seq<TraceRow>, byCase: map<string, nat>, members: seq<nat>,
            snapshotCases: seq<string>)
    requires NewestByCase(rows, byCase)
    ensures forall id | id in Samples(members, snapshotCases, byCase) ::
      exists i: nat, m: nat ::
        m < |members| && members[m] < |snapshotCases| && IsNewestOf(rows, i, snapshotCases[members[m]], id)
  {
    if members != [] {
      var rest, last := members[..|members| - 1], members[|members| - 1];
      SamplesAreMemberTraces(rows, byCase, rest, snapshotCases);
      forall id | id in Samples(rest, snapshotCases, byCase)
        ensures exists i: nat, m: nat ::
          m < |members| && members[m] < |snapshotCases| && IsNewestOf(rows, i, snapshotCases[members[m]], id)
      {
        var i: nat, m: nat :|
          m < |rest| && rest[m] < |snapshotCases| && IsNewestOf(rows, i, snapshotCases[rest[m]], id);
        assert members[m] == rest[m];
      }
      if Resolves(last, snapshotCases, byCase) {
        var i := NewestRowOf(rows, byCase, snapshotCases[last]);
        assert members[|members| - 1] == last;
        assert IsNewestOf(rows, i, snapshotCases[members[|members| - 1]], byCase[snapshotCases[last]]);
      }
    }
  }

  /** Row `i` is the last one of the case and has this id. */
  ghost predicate IsNewestOf(rows: seq<TraceRow>, i: nat, c: string, id: nat) {
    i < |rows| && rows[i].id == id && rows[i].caseId == c && forall j | i < j < |rows| :: rows[j].caseId != c
  }

  /** No member of a cluster over traced cases goes missing: the sample is as long as the members allow. */
  lemma {:induction false} SamplesAreComplete(members: seq<nat>, snapshotCases: seq<string>, byCase: map<string, nat>)
    ensures |Samples(members, snapshotCases, byCase)| == |members|
       <==> forall m | m in members :: Resolves(m, snapshotCases, byCase)
    ensures |Samples(members, snapshotCases, byCase)| <= |members|
  {
    if members != [] {
      var rest, last := members[..|members| - 1], members[|members| - 1];
      assert members == rest + [last];
      SamplesAreComplete(rest, snapshotCases, byCase);
      assert last in members;
    }
  }

  // ---------------------------------------------------------------------------
  // What the failure list makes of these rows
  // ---------------------------------------------------------------------------

  /** `row` is how the failure query reads the stored trace: JSON comes back as it was written, as text or decoded. */
  predicate ReadsBack(row: Row, stored: TraceRow, loads: Loads) {
    && row.traceId == stored.id
    && DecodeJsonb(row.events, loads) == stored.events
    && DecodeJsonb(row.metricOutputs, loads) == stored.metricOutputs
  }

  lemma NoEventFails(o: CaseResult, ids: TraceIds, span: Span)
    ensures forall e | e in EventsFor(o, ids, span).items :: !IsToolError(e)
  {
    assert |"tool_call_start"| == 15 && |"tool_call_result"| == 16;
    assert |"ok"| == 2 && |"error"| == 5;
  }

  lemma {:induction false} NothingToCount(items: seq<Json>)
    requires forall e | e in items :: !IsToolError(e)
    ensures CountErrors(items) == 0
  {
    if items != [] {
      NothingToCount(items[..|items| - 1]);
    }
  }

  lemma NoFoldKey(o: CaseResult)
    ensures "fold" !in MetricOutputs(o).fields
  {
    assert |"fold"| == 4 && |"case_id"| == 7 && |"predicted"| == 9 && |"expected"| == 8;
    assert |"passed"| == 6 && |"is_test_fold"| == 12 && |"rationale"| == 9;
  }

  /**
   The failure list hides rows stamped `fold: "test"`. The rows of this runner carry
   `is_test_fold` instead, so the filter shows every one of them, held-out cases included, and
   none has a tool error.
   */
  lemma IterationTracesAreNeverHidden(row: Row, stored: TraceRow, loads: Loads)
    requires FromRunner(stored) && ReadsBack(row, stored, loads)
    ensures Visible(row, false, loads) && Iterable(row, loads) && ToolErrors(row, loads) == 0
  {
    var o, ids, span :| stored == RowFor(o, ids, span);
    NoEventFails(o, ids, span);
    NothingToCount(EventsFor(o, ids, span).items);
    NoFoldKey(o);
  }

  /** The window holds traces of this runner only. */
  ghost predicate AllFromRunner(rows: seq<Row>, stored: seq<TraceRow>, loads: Loads) {
    |rows| == |stored| && forall x | 0 <= x < |rows| :: FromRunner(stored[x]) && ReadsBack(rows[x], stored[x], loads)
  }

  /**
   Hence, over the traces of this runner, leaving held-out cases out or asking for them gives
   the same list; with no more traces than places it has every one, the held-out cases too.
   */
  lemma HeldOutFilterDoesNothing(rows: seq<Row>, stored: seq<TraceRow>, k: nat, loads: Loads,
                                 p: seq<nat>, q: seq<nat>)
    requires AllFromRunner(rows, stored, loads)
    requires WorstOfWindow(rows, k, false, loads, p) && WorstOfWindow(rows, k, true, loads, q)
    ensures p == q
    ensures |rows| <= k ==> forall x: nat | x < |rows| :: x in p
  {
    forall x | 0 <= x < |rows| ensures Visible(rows[x], false, loads) {
      IterationTracesAreNeverHidden(rows[x], stored[x], loads);
    }
    WorstIsUnique(rows, k, true, loads, p, q);
    if |rows| <= k {
      SmallWindowIsShown(rows, k, loads, p);
    }
  }

  lemma SmallWindowIsShown(rows: seq<Row>, k: nat, loads: Loads, p: seq<nat>)
    requires |rows| <= k && WorstOfWindow(rows, k, false, loads, p)
    ensures forall x: nat | x < |rows| && Visible(rows[x], false, loads) :: x in p
  {
    if x: nat :| x < |rows| && Visible(rows[x], false, loads) && x !in p {
      forall i, j | 0 <= i < j < |p| ensures p[i] != p[j] {
        assert Before(Snaps(rows, loads), Worse, p[i], p[j]);
      }
      FullWindowHasAll(p, |rows|);
      assert false;
    }
  }
}
