/**
 Improvement iterations as a protocol: any number of runs of
 `run_one_iteration_for_workflow` interleaved over the shared tables, each database
 statement one step, with a failure possible at every one of them.

 A run allocates an index, inserts a `running` row, solves without a connection, and
 persists its outcome in one transaction; its exception handler writes `sandbox-error`
 in a statement of its own. Reads see what is committed when they execute.
 */
module IterationRunner {
  import opened Text
  import opened Scores
  import InstructionFile

  type RunId = nat

  // ---------------------------------------------------------------------------
  // Tables
  // ---------------------------------------------------------------------------

  datatype IterationState = Running | GatePass | GateBlockedNoImprovement | SandboxError

  /** An `iterations` row; a skill version is named by the run that registered it. */
  datatype Row = Row(
    workflow: string,
    index: nat,
    state: IterationState,
    valScore: Option<Stored>,
    bestBefore: Option<Stored>,
    bestAfter: Option<Stored>,
    proposedVersion: Option<RunId>)

  /** What phase 3 writes besides the iteration's own row. */
  datatype Write =
    | TraceRow(run: RunId, caseId: string)
    | CaseOutputRow(run: RunId, caseId: string)
    | ClusterRow(run: RunId, cluster: string)
    | ClusterAudit(run: RunId, cluster: string)
    | VersionRow(run: RunId, content: string)
    | VersionAudit(run: RunId)
    | ProposalRow(run: RunId, content: string)
    | ProposalAudit(run: RunId)
    | CompletedAudit(run: RunId)

  datatype Db = Db(rows: map<RunId, Row>, writes: seq<Write>)

  // ---------------------------------------------------------------------------
  // What one cycle asks phase 3 to write
  // ---------------------------------------------------------------------------

  /** Cycle 0 of the loop; `known` are the case ids that resolve to an `eval_cases` row. */
  datatype Cycle = Cycle(
    valScore: real,
    outcomes: seq<string>,
    known: set<string>,
    clusters: seq<string>,
    instructionAfter: Option<string>)

  predicate Proposes(before: Option<string>, cycle: Cycle) {
    cycle.instructionAfter.Some? && Trim(cycle.instructionAfter.value) != "" && cycle.instructionAfter != before
  }

  /** The cycle returned an instruction with something in it, and not the one the run began with. */
  ghost predicate BringsNewInstruction(before: Option<string>, cycle: Cycle) {
    exists text: string ::
      cycle.instructionAfter == Some(text) && before != Some(text) && exists c :: c in text && !IsSpace(c)
  }

  /** When phase 3 proposes an edit. */
  lemma ProposesIffNew(before: Option<string>, cycle: Cycle)
    ensures Proposes(before, cycle) <==> BringsNewInstruction(before, cycle)
  {
    if cycle.instructionAfter.Some? {
      TrimOfBlank(cycle.instructionAfter.value);
    }
  }

  function Traces(run: RunId, outcomes: seq<string>): seq<Write> {
    if outcomes == [] then [] else [TraceRow(run, outcomes[0])] + Traces(run, outcomes[1..])
  }

  function CaseOutputs(run: RunId, outcomes: seq<string>, known: set<string>): seq<Write> {
    if outcomes == [] then []
    else if outcomes[0] in known then
      [CaseOutputRow(run, outcomes[0])] + CaseOutputs(run, outcomes[1..], known)
    else CaseOutputs(run, outcomes[1..], known)
  }

  function Clusters(run: RunId, clusters: seq<string>): seq<Write> {
    if clusters == [] then []
    else [ClusterRow(run, clusters[0]), ClusterAudit(run, clusters[0])] + Clusters(run, clusters[1..])
  }

  function Proposal(run: RunId, workflow: string, before: Option<string>, cycle: Cycle): seq<Write> {
    if Proposes(before, cycle) then
      var content := InstructionFile.Build(workflow, cycle.instructionAfter.value);
      [VersionRow(run, content), VersionAudit(run), ProposalRow(run, content), ProposalAudit(run)]
    else []
  }

  /** The statements of the phase-3 transaction up to the best-score query, in order. */
  function Plan(run: RunId, workflow: string, before: Option<string>, cycle: Cycle): seq<Write> {
    Traces(run, cycle.outcomes) + CaseOutputs(run, cycle.outcomes, cycle.known)
    + Clusters(run, cycle.clusters) + Proposal(run, workflow, before, cycle)
  }

  /** The closing UPDATE of the iteration's row. */
  function Closed(row: Row, run: RunId, before: Option<string>, cycle: Cycle, best: Option<Stored>): Row {
    row.(state := if Proposes(before, cycle) then GatePass else GateBlockedNoImprovement,
         valScore := Some(Round(cycle.valScore)),
         proposedVersion := if Proposes(before, cycle) then Some(run) else None,
         bestBefore := best,
         bestAfter := Some(Round(
           if best.Some? then MaxReal(Load(best.value), cycle.valScore) else cycle.valScore)))
  }

  lemma CountOfCons<T>(x: T, s: seq<T>, w: T)
    ensures multiset([x] + s)[w] == multiset(s)[w] + if x == w then 1 else 0
  {
  }

  lemma {:induction false} TracedOutcomes(run: RunId, outcomes: seq<string>, w: Write)
    ensures multiset(Traces(run, outcomes))[w]
         == if w.TraceRow? && w.run == run then multiset(outcomes)[w.caseId] else 0
  {
    if outcomes != [] {
      TracedOutcomes(run, outcomes[1..], w);
      CountOfCons(TraceRow(run, outcomes[0]), Traces(run, outcomes[1..]), w);
      assert outcomes == [outcomes[0]] + outcomes[1..];
    }
  }

  lemma {:induction false} StoredOutcomes(run: RunId, outcomes: seq<string>, known: set<string>, w: Write)
    ensures multiset(CaseOutputs(run, outcomes, known))[w]
         == if w.CaseOutputRow? && w.run == run && w.caseId in known then multiset(outcomes)[w.caseId] else 0
  {
    if outcomes != [] {
      StoredOutcomes(run, outcomes[1..], known, w);
      CountOfCons(CaseOutputRow(run, outcomes[0]), CaseOutputs(run, outcomes[1..], known), w);
      assert outcomes == [outcomes[0]] + outcomes[1..];
    }
  }

  lemma {:induction false} AuditedClusters(run: RunId, clusters: seq<string>, w: Write)
    ensures multiset(Clusters(run, clusters))[w]
         == if (w.ClusterRow? || w.ClusterAudit?) && w.run == run then multiset(clusters)[w.cluster] else 0
  {
    if clusters != [] {
      AuditedClusters(run, clusters[1..], w);
      assert clusters == [clusters[0]] + clusters[1..];
    }
  }

  lemma ProposedWrites(run: RunId, workflow: string, before: Option<string>, cycle: Cycle, w: Write)
    ensures multiset(Proposal(run, workflow, before, cycle))[w]
         == if w.run == run && Proposes(before, cycle)
               && (w.VersionAudit? || w.ProposalAudit?
                   || ((w.VersionRow? || w.ProposalRow?)
                       && w.content == InstructionFile.Build(workflow, cycle.instructionAfter.value)))
            then 1 else 0
  {
  }

  lemma CountsAdd(s: seq<Write>, t: seq<Write>, w: Write)
    ensures multiset(s + t)[w] == multiset(s)[w] + multiset(t)[w]
  {
  }

  /** How many statements of a cycle make a write, kind by kind. */
  lemma PlanContents(run: RunId, workflow: string, before: Option<string>, cycle: Cycle, w: Write)
    ensures multiset(Plan(run, workflow, before, cycle))[w] ==
            if w.run != run then 0
            else
              match w
              case TraceRow(_, c) => multiset(cycle.outcomes)[c]
              case CaseOutputRow(_, c) => if c in cycle.known then multiset(cycle.outcomes)[c] else 0
              case ClusterRow(_, k) => multiset(cycle.clusters)[k]
              case ClusterAudit(_, k) => multiset(cycle.clusters)[k]
              case VersionRow(_, content) =>
                if && BringsNewInstruction(before, cycle)
                   && content == InstructionFile.Build(workflow, cycle.instructionAfter.value)
                then 1 else 0
              case ProposalRow(_, content) =>
                if && BringsNewInstruction(before, cycle)
                   && content == InstructionFile.Build(workflow, cycle.instructionAfter.value)
                then 1 else 0
              case VersionAudit(_) => if BringsNewInstruction(before, cycle) then 1 else 0
              case ProposalAudit(_) => if BringsNewInstruction(before, cycle) then 1 else 0
              case CompletedAudit(_) => 0
  {
    ProposesIffNew(before, cycle);
    var t, c := Traces(run, cycle.outcomes), CaseOutputs(run, cycle.outcomes, cycle.known);
    var k, p := Clusters(run, cycle.clusters), Proposal(run, workflow, before, cycle);
    CountsAdd(t + c + k, p, w);
    CountsAdd(t + c, k, w);
    CountsAdd(t, c, w);
    TracedOutcomes(run, cycle.outcomes, w);
    StoredOutcomes(run, cycle.outcomes, cycle.known, w);
    AuditedClusters(run, cycle.clusters, w);
    ProposedWrites(run, workflow, before, cycle, w);
  }

  /** The rows that statements leave: a case output is upserted on its run and case, the rest is inserted. */
  function RowsLeft(writes: seq<Write>): seq<Write> {
    if writes == [] then []
    else
      var before, last := RowsLeft(writes[..|writes| - 1]), writes[|writes| - 1];
      if last.CaseOutputRow? && last in before then before else before + [last]
  }

  /** A repeated case output leaves one row, any other write a row per statement. */
  lemma {:induction false} StoredCounts(writes: seq<Write>, w: Write)
    ensures multiset(RowsLeft(writes))[w]
         == if w.CaseOutputRow? then (if w in writes then 1 else 0) else multiset(writes)[w]
  {
    if writes != [] {
      var rest, last := writes[..|writes| - 1], writes[|writes| - 1];
      StoredCounts(rest, w);
      StoredCounts(rest, last);
      assert writes == rest + [last];
      assert last in RowsLeft(rest) <==> multiset(RowsLeft(rest))[last] > 0;
      CountsAdd(RowsLeft(rest), [last], w);
      CountsAdd(rest, [last], w);
    }
  }

  /** The rows a cycle leaves: as many as statements, but one case output per known case. */
  lemma PlanRows(run: RunId, workflow: string, before: Option<string>, cycle: Cycle, w: Write)
    ensures multiset(RowsLeft(Plan(run, workflow, before, cycle)))[w] ==
            if w.CaseOutputRow? then
              if w.run == run && w.caseId in cycle.known && w.caseId in cycle.outcomes then 1 else 0
            else multiset(Plan(run, workflow, before, cycle))[w]
  {
    var plan := Plan(run, workflow, before, cycle);
    StoredCounts(plan, w);
    PlanContents(run, workflow, before, cycle, w);
    assert w in plan <==> multiset(plan)[w] > 0;
    if w.CaseOutputRow? {
      assert w.caseId in cycle.outcomes <==> multiset(cycle.outcomes)[w.caseId] > 0;
    }
  }

  // ---------------------------------------------------------------------------
  // Runs and their steps
  // ---------------------------------------------------------------------------

  datatype Phase =
    | Reading(workflow: string, before: Option<string>)
    | Allocated(workflow: string, before: Option<string>, index: nat)
    | Rejected                                    // no row was inserted
    | Solving(before: Option<string>)
    | Persisting(before: Option<string>, cycle: Cycle, staged: seq<Write>)
    | Closing(before: Option<string>, cycle: Cycle, staged: seq<Write>, best: Option<Stored>, readAt: nat)
    | Auditing(before: Option<string>, cycle: Cycle, staged: seq<Write>, row: Row, readAt: nat)
    | Committing(before: Option<string>, cycle: Cycle, staged: seq<Write>, row: Row, readAt: nat)
    | Handling(committed: bool)                   // in the except block
    | Returned                                    // committed and acknowledged
    | Raised(committed: bool)                     // sandbox-error written, exception re-raised
    | Escaped(committed: bool)                    // failed outside the guarded regions

  /** One commit of phase 3; `readAt` counts the commits its best-score query came after. */
  datatype Commit = Commit(run: RunId, readAt: nat)

  datatype State = State(phases: map<RunId, Phase>, db: Db, commits: seq<Commit>)

  datatype Step =
    | Begin(run: RunId, workflow: string, before: Option<string>)
    | ReadIndex(run: RunId)
    | InsertRow(run: RunId)
    | Refuse(run: RunId)                // a phase-1 read fails
    | SolveFails(run: RunId)            // router error, loop failure, no cycles
    | SolveSucceeds(run: RunId, cycle: Cycle)
    | StageWrite(run: RunId)
    | ReadBest(run: RunId)
    | StageRow(run: RunId)
    | StageAudit(run: RunId)
    | CommitAcknowledged(run: RunId)
    | CommitInterrupted(run: RunId)     // COMMIT took effect but its await raised
    | PersistFails(run: RunId)          // rolled back
    | WriteSandboxError(run: RunId)
    | Escape(run: RunId)                // a failure no handler guards, or the handler's own

  ghost function Indices(db: Db, workflow: string): set<nat> {
    set r | r in db.rows && db.rows[r].workflow == workflow :: db.rows[r].index
  }

  ghost function BestScores(db: Db, workflow: string): set<Stored> {
    set r | r in db.rows && db.rows[r].workflow == workflow && db.rows[r].state != Running
            && db.rows[r].bestAfter.Some? :: db.rows[r].bestAfter.value
  }

  /** `_next_iteration_index`. */
  ghost function NextIndex(db: Db, workflow: string): nat {
    var s: set<int> := Indices(db, workflow);
    match MaxOf(s)
    case None => 0
    case Some(m) => m + 1
  }

  predicate InTransaction(p: Phase) {
    p.Persisting? || p.Closing? || p.Auditing? || p.Committing?
  }

  ghost predicate Enabled(s: State, step: Step) {
    match step
    case Begin(r, _, _) => r !in s.phases
    case ReadIndex(r) => r in s.phases && s.phases[r].Reading?
    case InsertRow(r) => r in s.phases && s.phases[r].Allocated?
    case Refuse(r) => r in s.phases && (s.phases[r].Reading? || s.phases[r].Allocated?)
    case SolveFails(r) => r in s.phases && s.phases[r].Solving?
    case SolveSucceeds(r, _) => r in s.phases && s.phases[r].Solving?
    case StageWrite(r) =>
      && r in s.phases && s.phases[r].Persisting? && r in s.db.rows
      && var p := s.phases[r]; |p.staged| < |Plan(r, s.db.rows[r].workflow, p.before, p.cycle)|
    case ReadBest(r) =>
      && r in s.phases && s.phases[r].Persisting? && r in s.db.rows
      && var p := s.phases[r]; |p.staged| == |Plan(r, s.db.rows[r].workflow, p.before, p.cycle)|
    case StageRow(r) => r in s.phases && s.phases[r].Closing? && r in s.db.rows
    case StageAudit(r) => r in s.phases && s.phases[r].Auditing?
    case CommitAcknowledged(r) => r in s.phases && s.phases[r].Committing?
    case CommitInterrupted(r) => r in s.phases && s.phases[r].Committing?
    case PersistFails(r) => r in s.phases && InTransaction(s.phases[r])
    case WriteSandboxError(r) => r in s.phases && s.phases[r].Handling? && r in s.db.rows
    case Escape(r) => r in s.phases && (s.phases[r].Solving? || s.phases[r].Handling?)
  }

  ghost function Next(s: State, step: Step): State
    requires Enabled(s, step)
  {
    var r := step.run;
    match step
    case Begin(_, workflow, before) => s.(phases := s.phases[r := Reading(workflow, before)])
    case ReadIndex(_) =>
      var p := s.phases[r];
      s.(phases := s.phases[r := Allocated(p.workflow, p.before, NextIndex(s.db, p.workflow))])
    case InsertRow(_) =>
      var p := s.phases[r];
      // UNIQUE (workflow_id, iteration_index)
      if p.index in Indices(s.db, p.workflow) then s.(phases := s.phases[r := Rejected])
      else
        var row := Row(p.workflow, p.index, Running, None, None, None, None);
        s.(phases := s.phases[r := Solving(p.before)], db := s.db.(rows := s.db.rows[r := row]))
    case Refuse(_) => s.(phases := s.phases[r := Rejected])
    case SolveFails(_) => s.(phases := s.phases[r := Handling(false)])
    case SolveSucceeds(_, cycle) => s.(phases := s.phases[r := Persisting(s.phases[r].before, cycle, [])])
    case StageWrite(_) =>
      var p := s.phases[r];
      var plan := Plan(r, s.db.rows[r].workflow, p.before, p.cycle);
      s.(phases := s.phases[r := Persisting(p.before, p.cycle, p.staged + [plan[|p.staged|]])])
    case ReadBest(_) =>
      var p := s.phases[r];
      var best := MaxOf(BestScores(s.db.(rows := s.db.rows - {r}), s.db.rows[r].workflow));
      s.(phases := s.phases[r := Closing(p.before, p.cycle, p.staged, best, |s.commits|)])
    case StageRow(_) =>
      var p := s.phases[r];
      var row := Closed(s.db.rows[r], r, p.before, p.cycle, p.best);
      s.(phases := s.phases[r := Auditing(p.before, p.cycle, p.staged, row, p.readAt)])
    case StageAudit(_) =>
      var p := s.phases[r];
      var staged := p.staged + [CompletedAudit(r)];
      s.(phases := s.phases[r := Committing(p.before, p.cycle, staged, p.row, p.readAt)])
    case CommitAcknowledged(_) => Committed(s, r).(phases := s.phases[r := Returned])
    case CommitInterrupted(_) => Committed(s, r).(phases := s.phases[r := Handling(true)])
    case PersistFails(_) => s.(phases := s.phases[r := Handling(false)])
    case WriteSandboxError(_) =>
      s.(phases := s.phases[r := Raised(s.phases[r].committed)],
         db := s.db.(rows := s.db.rows[r := s.db.rows[r].(state := SandboxError)]))
    case Escape(_) =>
      s.(phases := s.phases[r := Escaped(s.phases[r].Handling? && s.phases[r].committed)])
  }

  /** The effect of COMMIT: everything staged becomes visible at once. */
  ghost function Committed(s: State, r: RunId): State
    requires r in s.phases && s.phases[r].Committing?
  {
    var p := s.phases[r];
    s.(db := Db(s.db.rows[r := p.row], s.db.writes + p.staged), commits := s.commits + [Commit(r, p.readAt)])
  }

  const START := State(map[], Db(map[], []), [])

  /** A run of the whole system: every step is enabled when it is taken. */
  ghost predicate Feasible(steps: seq<Step>)
    decreases |steps|, 0
  {
    steps == [] ||
    (var n := |steps| - 1; Feasible(steps[..n]) && Enabled(After(steps[..n]), steps[n]))
  }

  ghost function After(steps: seq<Step>): State
    requires Feasible(steps)
    decreases |steps|, 1
  {
    if steps == [] then START
    else var n := |steps| - 1; Next(After(steps[..n]), steps[n])
  }

  // ---------------------------------------------------------------------------
  // All or nothing
  // ---------------------------------------------------------------------------

  /** The phase-3 rows one run left. */
  ghost function WritesOf(writes: seq<Write>, r: RunId): seq<Write> {
    if writes == [] then []
    else if writes[0].run == r then [writes[0]] + WritesOf(writes[1..], r)
    else WritesOf(writes[1..], r)
  }

  /** A row as its INSERT left it. */
  ghost predicate Fresh(row: Row) {
    row.state == Running && row == Row(row.workflow, row.index, Running, None, None, None, None)
  }

  /** All of a cycle's phase-3 writes, and a row closed in agreement with them. */
  ghost predicate Complete(r: RunId, row: Row, mine: seq<Write>) {
    exists before: Option<string>, cycle: Cycle ::
      && mine == Plan(r, row.workflow, before, cycle) + [CompletedAudit(r)]
      && row.valScore == Some(Round(cycle.valScore)) && row.bestAfter.Some?
      && row.proposedVersion == (if Proposes(before, cycle) then Some(r) else None)
  }

  /** What phase of a run its row and its writes must agree with. */
  ghost predicate Consistent(r: RunId, p: Phase, row: Row, mine: seq<Write>) {
    match p
    case Reading(_, _) => false
    case Allocated(_, _, _) => false
    case Rejected => false
    case Solving(_) => Fresh(row) && mine == []
    case Persisting(before, cycle, staged) =>
      Fresh(row) && mine == [] && staged <= Plan(r, row.workflow, before, cycle)
    case Closing(before, cycle, staged, _, _) =>
      Fresh(row) && mine == [] && staged == Plan(r, row.workflow, before, cycle)
    case Auditing(before, cycle, staged, next, _) =>
      Fresh(row) && mine == [] && staged == Plan(r, row.workflow, before, cycle)
      && exists best :: next == Closed(row, r, before, cycle, best)
    case Committing(before, cycle, staged, next, _) =>
      Fresh(row) && mine == [] && staged == Plan(r, row.workflow, before, cycle) + [CompletedAudit(r)]
      && exists best :: next == Closed(row, r, before, cycle, best)
    case Handling(committed) => if committed then Complete(r, row, mine) && Decided(row) else Fresh(row) && mine == []
    case Returned => Complete(r, row, mine) && Decided(row)
    case Raised(committed) =>
      row.state == SandboxError &&
      if committed then Complete(r, row, mine) else Fresh(row.(state := Running)) && mine == []
    case Escaped(committed) => if committed then Complete(r, row, mine) && Decided(row) else Fresh(row) && mine == []
  }

  /** The state a committed phase 3 gives its row. */
  ghost predicate Decided(row: Row) {
    row.state == if row.proposedVersion.Some? then GatePass else GateBlockedNoImprovement
  }

  ghost predicate Lifecycle(s: State) {
    && (forall r | r in s.db.rows ::
          r in s.phases && Consistent(r, s.phases[r], s.db.rows[r], WritesOf(s.db.writes, r)))
    && (forall r | r in s.phases && r !in s.db.rows ::
          s.phases[r].Reading? || s.phases[r].Allocated? || s.phases[r].Rejected?)
    && (forall w | w in s.db.writes :: w.run in s.db.rows)
  }

  lemma {:induction false} WritesOfConcat(s: seq<Write>, t: seq<Write>, r: RunId)
    ensures WritesOf(s + t, r) == WritesOf(s, r) + WritesOf(t, r)
  {
    if s == [] {
      assert s + t == t;
    } else {
      WritesOfConcat(s[1..], t, r);
      assert (s + t)[0] == s[0] && (s + t)[1..] == s[1..] + t;
    }
  }

  /** A run's statements among all: none is lost and none is another run's. */
  lemma {:induction false} WritesOfCounts(writes: seq<Write>, r: RunId, w: Write)
    ensures multiset(WritesOf(writes, r))[w] == if w.run == r then multiset(writes)[w] else 0
  {
    if writes != [] {
      WritesOfCounts(writes[1..], r, w);
      assert writes == [writes[0]] + writes[1..];
      CountsAdd([writes[0]], writes[1..], w);
      CountsAdd([writes[0]], WritesOf(writes[1..], r), w);
    }
  }

  /** The rows a run leaves do not depend on what the others wrote around it. */
  lemma RowsLeftByRun(writes: seq<Write>, w: Write)
    ensures multiset(RowsLeft(writes))[w] == multiset(RowsLeft(WritesOf(writes, w.run)))[w]
  {
    StoredCounts(writes, w);
    StoredCounts(WritesOf(writes, w.run), w);
    WritesOfCounts(writes, w.run, w);
    assert w in writes <==> multiset(writes)[w] > 0;
    assert w in WritesOf(writes, w.run) <==> multiset(WritesOf(writes, w.run))[w] > 0;
  }

  ghost predicate WrittenBy(writes: seq<Write>, r: RunId) {
    forall w | w in writes :: w.run == r
  }

  lemma {:induction false} WritesOfOneRun(writes: seq<Write>, mine: RunId, r: RunId)
    requires WrittenBy(writes, mine)
    ensures WritesOf(writes, r) == if r == mine then writes else []
  {
    if writes != [] {
      WritesOfOneRun(writes[1..], mine, r);
      assert writes == [writes[0]] + writes[1..];
    }
  }

  lemma {:induction false} WritesOfNobody(writes: seq<Write>, r: RunId)
    requires forall w | w in writes :: w.run != r
    ensures WritesOf(writes, r) == []
  {
    if writes != [] {
      WritesOfNobody(writes[1..], r);
    }
  }

  lemma {:induction false} TracesByRun(run: RunId, outcomes: seq<string>, known: set<string>)
    ensures WrittenBy(Traces(run, outcomes), run) && WrittenBy(CaseOutputs(run, outcomes, known), run)
  {
    if outcomes != [] {
      TracesByRun(run, outcomes[1..], known);
    }
  }

  lemma {:induction false} ClustersByRun(run: RunId, clusters: seq<string>)
    ensures WrittenBy(Clusters(run, clusters), run)
  {
    if clusters != [] {
      ClustersByRun(run, clusters[1..]);
    }
  }

  lemma WrittenByBoth(s: seq<Write>, t: seq<Write>, run: RunId)
    requires WrittenBy(s, run) && WrittenBy(t, run)
    ensures WrittenBy(s + t, run)
  {
  }

  lemma PlanByRun(run: RunId, workflow: string, before: Option<string>, cycle: Cycle)
    ensures WrittenBy(Plan(run, workflow, before, cycle) + [CompletedAudit(run)], run)
  {
    var t, c := Traces(run, cycle.outcomes), CaseOutputs(run, cycle.outcomes, cycle.known);
    var k := Clusters(run, cycle.clusters);
    TracesByRun(run, cycle.outcomes, cycle.known);
    ClustersByRun(run, cycle.clusters);
    WrittenByBoth(t, c, run);
    WrittenByBoth(t + c, k, run);
    WrittenByBoth(t + c + k, Proposal(run, workflow, before, cycle), run);
    WrittenByBoth(Plan(run, workflow, before, cycle), [CompletedAudit(run)], run);
  }

  /** A step that changes nothing but one run's phase. */
  lemma PhaseKeepsLifecycle(s: State, r: RunId, p: Phase)
    requires Lifecycle(s)
    requires if r in s.db.rows then Consistent(r, p, s.db.rows[r], WritesOf(s.db.writes, r))
             else p.Reading? || p.Allocated? || p.Rejected?
    ensures Lifecycle(s.(phases := s.phases[r := p]))
  {
  }

  /** A commit: one run's phase and row change and its staged writes become visible. */
  lemma CommitKeepsLifecycle(s: State, r: RunId, p: Phase, row: Row, staged: seq<Write>, commits: seq<Commit>)
    requires Lifecycle(s) && r in s.db.rows && WrittenBy(staged, r) && WritesOf(s.db.writes, r) == []
    requires Consistent(r, p, row, staged)
    ensures Lifecycle(State(s.phases[r := p], Db(s.db.rows[r := row], s.db.writes + staged), commits))
  {
    var s' := State(s.phases[r := p], Db(s.db.rows[r := row], s.db.writes + staged), commits);
    forall q | q in s'.db.rows
      ensures q in s'.phases && Consistent(q, s'.phases[q], s'.db.rows[q], WritesOf(s'.db.writes, q))
    {
      WritesOfConcat(s.db.writes, staged, q);
      WritesOfOneRun(staged, r, q);
      if q == r {
        assert WritesOf(s'.db.writes, q) == staged;
      } else {
        assert WritesOf(s'.db.writes, q) == WritesOf(s.db.writes, q);
        assert Consistent(q, s.phases[q], s.db.rows[q], WritesOf(s.db.writes, q));
      }
    }
  }

  lemma ClosedIsComplete(r: RunId, row: Row, before: Option<string>, cycle: Cycle, best: Option<Stored>)
    ensures Complete(r, Closed(row, r, before, cycle, best),
                     Plan(r, row.workflow, before, cycle) + [CompletedAudit(r)])
    ensures Decided(Closed(row, r, before, cycle, best))
  {
  }

  /** A step that changes one run's phase and its row. */
  lemma RowKeepsLifecycle(s: State, r: RunId, p: Phase, row: Row)
    requires Lifecycle(s)
    requires Consistent(r, p, row, WritesOf(s.db.writes, r))
    ensures Lifecycle(s.(phases := s.phases[r := p], db := s.db.(rows := s.db.rows[r := row])))
  {
  }

  lemma StepKeepsLifecycle(s: State, step: Step)
    requires Lifecycle(s) && Enabled(s, step)
    ensures Lifecycle(Next(s, step))
  {
    var r := step.run;
    match step
    case CommitAcknowledged(_) => CommitStepKeepsLifecycle(s, step);
    case CommitInterrupted(_) => CommitStepKeepsLifecycle(s, step);
    case InsertRow(_) => InsertKeepsLifecycle(s, r);
    case WriteSandboxError(_) =>
      RowKeepsLifecycle(s, r, Raised(s.phases[r].committed), s.db.rows[r].(state := SandboxError));
    case StageWrite(_) => StagingKeepsLifecycle(s, step);
    case ReadBest(_) => StagingKeepsLifecycle(s, step);
    case StageRow(_) => StagingKeepsLifecycle(s, step);
    case StageAudit(_) => StagingKeepsLifecycle(s, step);
    case _ => PhaseKeepsLifecycle(s, r, Next(s, step).phases[r]);
  }

  lemma InsertKeepsLifecycle(s: State, r: RunId)
    requires Lifecycle(s) && Enabled(s, InsertRow(r))
    ensures Lifecycle(Next(s, InsertRow(r)))
  {
    var p := s.phases[r];
    WritesOfNobody(s.db.writes, r);
    if p.index in Indices(s.db, p.workflow) {
      PhaseKeepsLifecycle(s, r, Rejected);
    } else {
      RowKeepsLifecycle(s, r, Solving(p.before), Row(p.workflow, p.index, Running, None, None, None, None));
    }
  }

  lemma StagingKeepsLifecycle(s: State, step: Step)
    requires Lifecycle(s) && Enabled(s, step)
    requires step.StageWrite? || step.ReadBest? || step.StageRow? || step.StageAudit?
    ensures Lifecycle(Next(s, step))
  {
    var r := step.run;
    var p, row := s.phases[r], s.db.rows[r];
    if step.StageWrite? {
      var plan := Plan(r, row.workflow, p.before, p.cycle);
      assert p.staged + [plan[|p.staged|]] <= plan;
    }
    PhaseKeepsLifecycle(s, r, Next(s, step).phases[r]);
  }

  lemma CommitStepKeepsLifecycle(s: State, step: Step)
    requires Lifecycle(s) && Enabled(s, step) && (step.CommitAcknowledged? || step.CommitInterrupted?)
    ensures Lifecycle(Next(s, step))
  {
    var r := step.run;
    var p, row := s.phases[r], s.db.rows[r];
    var best :| p.row == Closed(row, r, p.before, p.cycle, best);
    PlanByRun(r, row.workflow, p.before, p.cycle);
    ClosedIsComplete(r, row, p.before, p.cycle, best);
    CommitKeepsLifecycle(s, r, Next(s, step).phases[r], p.row, p.staged, Next(s, step).commits);
  }

  lemma {:induction false} AlwaysInStep(steps: seq<Step>)
    requires Feasible(steps)
    ensures Lifecycle(After(steps))
    decreases |steps|
  {
    if steps != [] {
      var n := |steps| - 1;
      AlwaysInStep(steps[..n]);
      StepKeepsLifecycle(After(steps[..n]), steps[n]);
    }
  }

  /** A run can fail wherever it stands: before it has a row, while it solves, persists or handles a failure. */
  lemma FailureEverywhere(s: State, r: RunId)
    requires Lifecycle(s) && r in s.phases
    ensures s.phases[r].Reading? || s.phases[r].Allocated? ==>
      Enabled(s, Refuse(r)) && Next(s, Refuse(r)).phases[r].Rejected?
    ensures s.phases[r].Solving? ==>
      && Enabled(s, SolveFails(r)) && Next(s, SolveFails(r)).phases[r] == Handling(false)
      && Enabled(s, Escape(r)) && Next(s, Escape(r)).phases[r] == Escaped(false)
    ensures InTransaction(s.phases[r]) ==>
      && Enabled(s, PersistFails(r)) && Next(s, PersistFails(r)).phases[r] == Handling(false)
      && Next(s, PersistFails(r)).db == s.db
    ensures s.phases[r].Committing? ==> Enabled(s, CommitInterrupted(r)) && Enabled(s, CommitAcknowledged(r))
    ensures s.phases[r].Handling? ==>
      && Enabled(s, WriteSandboxError(r)) && Enabled(s, Escape(r))
      && Next(s, Escape(r)).phases[r] == Escaped(s.phases[r].committed)
      && Next(s, WriteSandboxError(r)).phases[r] == Raised(s.phases[r].committed)
      && Next(s, WriteSandboxError(r)).db.rows[r].state == SandboxError
  {
  }

  // ---------------------------------------------------------------------------
  // Whose rows a commit leaves
  // ---------------------------------------------------------------------------

  /** COMMIT took effect, acknowledged or not. */
  ghost predicate PastCommit(p: Phase) {
    p.Returned? || MarkedCommitted(p)
  }

  /** All that this workflow, this instruction before and this cycle lead to, and a row closed with it. */
  ghost predicate CompleteFor(r: RunId, row: Row, mine: seq<Write>, workflow: string, before: Option<string>,
                              cycle: Cycle) {
    && mine == Plan(r, workflow, before, cycle) + [CompletedAudit(r)]
    && row.workflow == workflow && row.valScore == Some(Round(cycle.valScore)) && row.bestAfter.Some?
    && row.proposedVersion == (if Proposes(before, cycle) then Some(r) else None)
  }

  /** The run still works on what it began with. */
  ghost predicate BeganWith(s: State, r: RunId, workflow: string, before: Option<string>) {
    && r in s.phases && Keeps(s.phases[r], workflow, before)
    && (r in s.db.rows ==> s.db.rows[r].workflow == workflow)
  }

  ghost predicate Keeps(p: Phase, workflow: string, before: Option<string>) {
    && (p.Reading? || p.Allocated? ==> p.workflow == workflow)
    && (p.Reading? || p.Allocated? || p.Solving? || InTransaction(p) ==> p.before == before)
  }

  /** The run still works on the cycle it solved, and has committed that one if any. */
  ghost predicate SolvedWith(s: State, r: RunId, workflow: string, before: Option<string>, cycle: Cycle) {
    && r in s.phases && r in s.db.rows && WorksOn(s.phases[r], cycle)
    && (PastCommit(s.phases[r]) ==>
          CompleteFor(r, s.db.rows[r], WritesOf(s.db.writes, r), workflow, before, cycle))
  }

  ghost predicate WorksOn(p: Phase, cycle: Cycle) {
    && !p.Reading? && !p.Allocated? && !p.Rejected? && !p.Solving?
    && (InTransaction(p) ==> p.cycle == cycle)
  }

  /** The steps of other runs leave a run's phase, row and writes alone. */
  lemma OthersLeave(s: State, step: Step, r: RunId)
    requires Lifecycle(s) && Enabled(s, step) && step.run != r
    ensures
      var t := Next(s, step);
      && (r in s.phases <==> r in t.phases) && (r in s.db.rows <==> r in t.db.rows)
      && (r in s.phases ==> t.phases[r] == s.phases[r]) && (r in s.db.rows ==> t.db.rows[r] == s.db.rows[r])
      && WritesOf(t.db.writes, r) == WritesOf(s.db.writes, r)
  {
    if step.CommitAcknowledged? || step.CommitInterrupted? {
      StagedIsOwn(s, step.run);
      WritesOfConcat(s.db.writes, s.phases[step.run].staged, r);
      WritesOfOneRun(s.phases[step.run].staged, step.run, r);
    }
  }

  lemma StagedIsOwn(s: State, r: RunId)
    requires Lifecycle(s) && r in s.phases && s.phases[r].Committing?
    ensures r in s.db.rows && WrittenBy(s.phases[r].staged, r)
  {
    PlanByRun(r, s.db.rows[r].workflow, s.phases[r].before, s.phases[r].cycle);
  }

  lemma StepKeepsBeginning(s: State, step: Step, r: RunId, workflow: string, before: Option<string>)
    requires Lifecycle(s) && Enabled(s, step) && BeganWith(s, r, workflow, before)
    ensures BeganWith(Next(s, step), r, workflow, before)
  {
    if step.run != r {
      OthersLeave(s, step, r);
    } else {
      OwnStepKeepsBeginning(s, step, workflow, before);
    }
  }

  lemma OwnStepKeepsBeginning(s: State, step: Step, workflow: string, before: Option<string>)
    requires Lifecycle(s) && Enabled(s, step) && BeganWith(s, step.run, workflow, before)
    ensures BeganWith(Next(s, step), step.run, workflow, before)
  {
  }

  /** The commit writes what was staged, which is the plan of the run's own cycle. */
  lemma CommitIsOwn(s: State, step: Step, workflow: string, before: Option<string>, cycle: Cycle)
    requires Lifecycle(s) && Enabled(s, step) && (step.CommitAcknowledged? || step.CommitInterrupted?)
    requires BeganWith(s, step.run, workflow, before) && SolvedWith(s, step.run, workflow, before, cycle)
    ensures
      var t := Next(s, step);
      && step.run in t.db.rows
      && CompleteFor(step.run, t.db.rows[step.run], WritesOf(t.db.writes, step.run), workflow, before, cycle)
  {
    var r := step.run;
    StagedIsOwn(s, r);
    WritesOfConcat(s.db.writes, s.phases[r].staged, r);
    WritesOfOneRun(s.phases[r].staged, r, r);
    assert WritesOf(s.db.writes, r) == [];
  }

  lemma StepKeepsCycle(s: State, step: Step, r: RunId, workflow: string, before: Option<string>, cycle: Cycle)
    requires Lifecycle(s) && Enabled(s, step)
    requires BeganWith(s, r, workflow, before) && SolvedWith(s, r, workflow, before, cycle)
    ensures SolvedWith(Next(s, step), r, workflow, before, cycle)
  {
    if step.run != r {
      OthersLeave(s, step, r);
    } else if step.CommitAcknowledged? || step.CommitInterrupted? {
      CommitIsOwn(s, step, workflow, before, cycle);
    } else {
      OwnStepKeepsCycle(s, step, workflow, before, cycle);
    }
  }

  lemma OwnStepKeepsCycle(s: State, step: Step, workflow: string, before: Option<string>, cycle: Cycle)
    requires Enabled(s, step) && !step.CommitAcknowledged? && !step.CommitInterrupted?
    requires SolvedWith(s, step.run, workflow, before, cycle)
    ensures SolvedWith(Next(s, step), step.run, workflow, before, cycle)
  {
    assert Next(s, step).db.writes == s.db.writes;
  }

  /** Whoever took a step has a phase. */
  lemma {:induction false} StepsAreOfRuns(steps: seq<Step>, step: Step)
    requires Feasible(steps) && step in steps
    ensures step.run in After(steps).phases
    decreases |steps|
  {
    var n := |steps| - 1;
    assert steps == steps[..n] + [steps[n]];
    if step in steps[..n] {
      StepsAreOfRuns(steps[..n], step);
    }
  }

  lemma {:induction false} BeginningIsKept(steps: seq<Step>, r: RunId, workflow: string, before: Option<string>)
    requires Feasible(steps) && Begin(r, workflow, before) in steps
    ensures BeganWith(After(steps), r, workflow, before)
    decreases |steps|
  {
    var n := |steps| - 1;
    assert steps == steps[..n] + [steps[n]];
    AlwaysInStep(steps[..n]);
    if Begin(r, workflow, before) in steps[..n] {
      BeginningIsKept(steps[..n], r, workflow, before);
      StepKeepsBeginning(After(steps[..n]), steps[n], r, workflow, before);
    }
  }

  lemma {:induction false} CycleIsKept(steps: seq<Step>, r: RunId, workflow: string, before: Option<string>,
                                       cycle: Cycle)
    requires Feasible(steps) && Begin(r, workflow, before) in steps && SolveSucceeds(r, cycle) in steps
    ensures SolvedWith(After(steps), r, workflow, before, cycle)
    decreases |steps|
  {
    var n := |steps| - 1;
    assert steps == steps[..n] + [steps[n]];
    AlwaysInStep(steps[..n]);
    if SolveSucceeds(r, cycle) in steps[..n] {
      StepsAreOfRuns(steps[..n], SolveSucceeds(r, cycle));
      assert Begin(r, workflow, before) in steps[..n];
      BeginningIsKept(steps[..n], r, workflow, before);
      CycleIsKept(steps[..n], r, workflow, before, cycle);
      StepKeepsCycle(After(steps[..n]), steps[n], r, workflow, before, cycle);
    }
  }

  /** What a run had committed is what it began with and solved, whatever ran beside it. */
  lemma CommittedRowsAreOwn(steps: seq<Step>, r: RunId, workflow: string, before: Option<string>, cycle: Cycle)
    requires Feasible(steps) && Begin(r, workflow, before) in steps && SolveSucceeds(r, cycle) in steps
    requires r in After(steps).phases && PastCommit(After(steps).phases[r])
    ensures
      var db := After(steps).db;
      r in db.rows && CompleteFor(r, db.rows[r], WritesOf(db.writes, r), workflow, before, cycle)
  {
    CycleIsKept(steps, r, workflow, before, cycle);
  }

  /** A run under way was begun. */
  lemma {:induction false} WasBegun(steps: seq<Step>, r: RunId) returns (workflow: string, before: Option<string>)
    requires Feasible(steps) && r in After(steps).phases
    ensures Begin(r, workflow, before) in steps
    decreases |steps|
  {
    var n := |steps| - 1;
    assert steps == steps[..n] + [steps[n]];
    if r in After(steps[..n]).phases {
      workflow, before := WasBegun(steps[..n], r);
    } else {
      workflow, before := steps[n].workflow, steps[n].before;
    }
  }

  ghost predicate PastSolve(p: Phase) {
    InTransaction(p) || PastCommit(p)
  }

  /** A run that persists or has committed solved a cycle. */
  lemma {:induction false} WasSolved(steps: seq<Step>, r: RunId) returns (cycle: Cycle)
    requires Feasible(steps) && r in After(steps).phases && PastSolve(After(steps).phases[r])
    ensures SolveSucceeds(r, cycle) in steps
    decreases |steps|
  {
    var n := |steps| - 1;
    assert steps == steps[..n] + [steps[n]];
    if steps[n].SolveSucceeds? && steps[n].run == r {
      cycle := steps[n].cycle;
    } else {
      cycle := WasSolved(steps[..n], r);
    }
  }

  ghost predicate MarkedCommitted(p: Phase) {
    (p.Handling? || p.Raised? || p.Escaped?) && p.committed
  }

  ghost predicate Marked(s: State, r: RunId) {
    r in s.phases && MarkedCommitted(s.phases[r])
  }

  lemma StepMarks(s: State, step: Step, r: RunId)
    requires Enabled(s, step)
    ensures Marked(Next(s, step), r) <==> Marked(s, r) || step == CommitInterrupted(r)
  {
    if step.run == r && r in s.phases {
      assert MarkedCommitted(s.phases[r]) ==> step.WriteSandboxError? || step.Escape?;
    }
  }

  /** A run remembers whether its commit was interrupted. */
  lemma {:induction false} InterruptionIsRemembered(steps: seq<Step>, r: RunId)
    requires Feasible(steps)
    ensures var s := After(steps);
            CommitInterrupted(r) in steps <==> Marked(s, r)
    decreases |steps|
  {
    if steps != [] {
      var n := |steps| - 1;
      InterruptionIsRemembered(steps[..n], r);
      assert steps == steps[..n] + [steps[n]];
      StepMarks(After(steps[..n]), steps[n], r);
    }
  }

  /** All that the run's own steps lead to, and its row closed with it. */
  ghost predicate OwnRows(steps: seq<Step>, r: RunId, row: Row, mine: seq<Write>) {
    exists workflow: string, before: Option<string>, cycle: Cycle ::
      && Begin(r, workflow, before) in steps && SolveSucceeds(r, cycle) in steps
      && CompleteFor(r, row, mine, workflow, before, cycle)
  }

  lemma CommitLeavesOwnRows(steps: seq<Step>, r: RunId)
    requires Feasible(steps) && r in After(steps).phases && PastCommit(After(steps).phases[r])
    ensures var db := After(steps).db; r in db.rows && OwnRows(steps, r, db.rows[r], WritesOf(db.writes, r))
  {
    var workflow, before := WasBegun(steps, r);
    var cycle := WasSolved(steps, r);
    CommittedRowsAreOwn(steps, r, workflow, before, cycle);
  }

  /** Every row agrees with the phase its run is in, and once committed with what the run was given and solved. */
  lemma AlwaysLifecycle(steps: seq<Step>)
    requires Feasible(steps)
    ensures var s := After(steps);
            && Lifecycle(s)
            && forall r | r in s.phases && PastCommit(s.phases[r]) ::
                 r in s.db.rows && OwnRows(steps, r, s.db.rows[r], WritesOf(s.db.writes, r))
  {
    AlwaysInStep(steps);
    var s := After(steps);
    forall r | r in s.phases && PastCommit(s.phases[r])
      ensures r in s.db.rows && OwnRows(steps, r, s.db.rows[r], WritesOf(s.db.writes, r))
    {
      CommitLeavesOwnRows(steps, r);
    }
  }

  ghost function Proposals(writes: seq<Write>): nat {
    if writes == [] then 0
    else (if writes[0].ProposalRow? then 1 else 0) + Proposals(writes[1..])
  }

  lemma {:induction false} ProposalsConcat(s: seq<Write>, t: seq<Write>)
    ensures Proposals(s + t) == Proposals(s) + Proposals(t)
  {
    if s == [] {
      assert s + t == t;
    } else {
      ProposalsConcat(s[1..], t);
      assert (s + t)[0] == s[0] && (s + t)[1..] == s[1..] + t;
    }
  }

  lemma {:induction false} NoProposals(writes: seq<Write>)
    requires forall w | w in writes :: !w.ProposalRow?
    ensures Proposals(writes) == 0
  {
    if writes != [] {
      NoProposals(writes[1..]);
    }
  }

  lemma {:induction false} TracesProposeNothing(run: RunId, outcomes: seq<string>, known: set<string>)
    ensures Proposals(Traces(run, outcomes)) == 0 && Proposals(CaseOutputs(run, outcomes, known)) == 0
  {
    if outcomes != [] {
      TracesProposeNothing(run, outcomes[1..], known);
    }
  }

  lemma {:induction false} ClustersProposeNothing(run: RunId, clusters: seq<string>)
    ensures Proposals(Clusters(run, clusters)) == 0
  {
    if clusters != [] {
      ClustersProposeNothing(run, clusters[1..]);
      ProposalsConcat([ClusterRow(run, clusters[0]), ClusterAudit(run, clusters[0])], Clusters(run, clusters[1..]));
      NoProposals([ClusterRow(run, clusters[0]), ClusterAudit(run, clusters[0])]);
    }
  }

  lemma PlannedProposals(r: RunId, workflow: string, before: Option<string>, cycle: Cycle)
    ensures Proposals(Plan(r, workflow, before, cycle) + [CompletedAudit(r)])
            == if BringsNewInstruction(before, cycle) then 1 else 0
  {
    ProposesIffNew(before, cycle);
    var t, c, k := Traces(r, cycle.outcomes), CaseOutputs(r, cycle.outcomes, cycle.known), Clusters(r, cycle.clusters);
    var p := Proposal(r, workflow, before, cycle);
    ProposalsConcat(t + c + k + p, [CompletedAudit(r)]);
    ProposalsConcat(t + c + k, p);
    ProposalsConcat(t + c, k);
    ProposalsConcat(t, c);
    TracesProposeNothing(r, cycle.outcomes, cycle.known);
    ClustersProposeNothing(r, cycle.clusters);
    NoProposals([CompletedAudit(r)]);
    if Proposes(before, cycle) {
      var content := InstructionFile.Build(workflow, cycle.instructionAfter.value);
      assert p == [VersionRow(r, content), VersionAudit(r)] + [ProposalRow(r, content)] + [ProposalAudit(r)];
      ProposalsConcat([VersionRow(r, content), VersionAudit(r)] + [ProposalRow(r, content)], [ProposalAudit(r)]);
      ProposalsConcat([VersionRow(r, content), VersionAudit(r)], [ProposalRow(r, content)]);
      NoProposals([VersionRow(r, content), VersionAudit(r)]);
      NoProposals([ProposalAudit(r)]);
    }
  }

  /** The run has not left the guarded regions, or left them with no handler in charge. */
  ghost predicate StillOpen(p: Phase) {
    p.Solving? || InTransaction(p) || (p.Handling? && !p.committed) || (p.Escaped? && !p.committed)
  }

  /**
   What a row says about its run. It is `running` exactly while its run is open, and then it
   has no phase-3 rows. Closed by its commit it has all that the run's own cycle leads to. A
   `sandbox-error` row has none, unless its COMMIT was interrupted after taking effect, and
   then it has all of that. `gate-pass` means one proposal and a proposed version.
   */
  ghost predicate RowStory(steps: seq<Step>, r: RunId, p: Phase, row: Row, mine: seq<Write>) {
    var interrupted := CommitInterrupted(r) in steps;
    && (row.state == Running <==> StillOpen(p))
    && (row.state == Running ==> mine == [])
    && (row.state == GatePass || row.state == GateBlockedNoImprovement ==> OwnRows(steps, r, row, mine))
    && (row.state == SandboxError ==> if interrupted then mine != [] && OwnRows(steps, r, row, mine) else mine == [])
    && (row.state == GatePass <==>
        row.state != SandboxError && Proposals(mine) == 1 && row.proposedVersion == Some(r))
    && (!interrupted ==>
        (row.state == GatePass <==> Proposals(mine) == 1) && (row.state == GatePass <==> row.proposedVersion.Some?))
  }

  /** Every interleaving leaves every row such a story. */
  lemma AllOrNothing(steps: seq<Step>)
    requires Feasible(steps)
    ensures var s := After(steps);
            forall r | r in s.db.rows ::
              r in s.phases && RowStory(steps, r, s.phases[r], s.db.rows[r], WritesOf(s.db.writes, r))
  {
    AlwaysLifecycle(steps);
    var s := After(steps);
    forall r | r in s.db.rows
      ensures r in s.phases && RowStory(steps, r, s.phases[r], s.db.rows[r], WritesOf(s.db.writes, r))
    {
      InterruptionIsRemembered(steps, r);
      ConsistentTellsStory(steps, r, s.phases[r], s.db.rows[r], WritesOf(s.db.writes, r));
    }
  }

  /** The closing entry is one more row. */
  lemma RowsLeftWithAudit(plan: seq<Write>, w: Write)
    ensures multiset(RowsLeft(plan + [CompletedAudit(w.run)]))[w]
         == multiset(RowsLeft(plan))[w] + if w.CompletedAudit? then 1 else 0
  {
    var last := CompletedAudit(w.run);
    assert (plan + [last])[..|plan|] == plan;
    CountsAdd(RowsLeft(plan), [last], w);
  }

  /** What a committed run has in the tables, whatever ran beside it: its own cycle's rows and the closing entry. */
  lemma CommittedRows(steps: seq<Step>, w: Write, workflow: string, before: Option<string>, cycle: Cycle)
    requires Feasible(steps) && Begin(w.run, workflow, before) in steps && SolveSucceeds(w.run, cycle) in steps
    requires w.run in After(steps).phases && PastCommit(After(steps).phases[w.run])
    ensures
      var plan := Plan(w.run, workflow, before, cycle);
      && WritesOf(After(steps).db.writes, w.run) == plan + [CompletedAudit(w.run)]
      && multiset(RowsLeft(After(steps).db.writes))[w]
         == multiset(RowsLeft(plan))[w] + if w.CompletedAudit? then 1 else 0
  {
    CommittedRowsAreOwn(steps, w.run, workflow, before, cycle);
    RowsLeftByRun(After(steps).db.writes, w);
    RowsLeftWithAudit(Plan(w.run, workflow, before, cycle), w);
  }

  /** Of the runs that returned, exactly those whose cycle brought a new instruction passed the gate. */
  lemma GatePassIff(steps: seq<Step>, r: RunId, workflow: string, before: Option<string>, cycle: Cycle)
    requires Feasible(steps) && Begin(r, workflow, before) in steps && SolveSucceeds(r, cycle) in steps
    requires r in After(steps).phases && After(steps).phases[r].Returned?
    ensures
      var db := After(steps).db;
      && r in db.rows
      && db.rows[r].state == (if BringsNewInstruction(before, cycle) then GatePass else GateBlockedNoImprovement)
  {
    CommittedRowsAreOwn(steps, r, workflow, before, cycle);
    AlwaysInStep(steps);
    ProposesIffNew(before, cycle);
  }

  lemma ConsistentTellsStory(steps: seq<Step>, r: RunId, p: Phase, row: Row, mine: seq<Write>)
    requires Consistent(r, p, row, mine) && (CommitInterrupted(r) in steps <==> MarkedCommitted(p))
    requires PastCommit(p) ==> OwnRows(steps, r, row, mine)
    ensures RowStory(steps, r, p, row, mine)
  {
    CompleteProposals(r, row, mine);
  }

  lemma CompleteProposals(r: RunId, row: Row, mine: seq<Write>)
    ensures Complete(r, row, mine) ==>
              && mine != [] && row.proposedVersion in {None, Some(r)}
              && Proposals(mine) == if row.proposedVersion.Some? then 1 else 0
  {
    if Complete(r, row, mine) {
      var before: Option<string>, cycle: Cycle :|
        && mine == Plan(r, row.workflow, before, cycle) + [CompletedAudit(r)]
        && row.valScore == Some(Round(cycle.valScore)) && row.bestAfter.Some?
        && row.proposedVersion == (if Proposes(before, cycle) then Some(r) else None);
      PlannedProposals(r, row.workflow, before, cycle);
      ProposesIffNew(before, cycle);
    }
  }

  /** Proposed content reads back as the instruction it was built from. */
  ghost predicate ReadsBackIff(w: Write, workflow: string, instruction: string)
    requires w.VersionRow? || w.ProposalRow?
  {
    InstructionFile.ReadBack(w.content) == Some(Trim(instruction)) <==> !Contains(workflow, InstructionFile.FENCE)
  }

  /** The registered version and the proposal, if there are any, read back as what was proposed. */
  lemma ProposedInstructionReadsBack(r: RunId, workflow: string, before: Option<string>, cycle: Cycle)
    ensures forall w | w in Proposal(r, workflow, before, cycle) && (w.VersionRow? || w.ProposalRow?) ::
              cycle.instructionAfter.Some? && ReadsBackIff(w, workflow, cycle.instructionAfter.value)
  {
    if Proposes(before, cycle) {
      InstructionFile.RoundTrip(workflow, cycle.instructionAfter.value);
    }
  }
}
