/**
 Two things the iteration protocol does not promise, each with the run that shows it, and
 the fact both rest on: from any reachable state a new run can always get to its COMMIT.
 */
module IterationHazards {
  import opened Text
  import opened Scores
  import opened IterationRunner
  import opened IterationScores

  lemma Take(steps: seq<Step>, step: Step)
    requires Feasible(steps) && Enabled(After(steps), step)
    ensures Feasible(steps + [step]) && After(steps + [step]) == Next(After(steps), step)
  {
    assert (steps + [step])[..|steps|] == steps;
  }

  lemma Overwrite<K, V>(m: map<K, V>, k: K, x: V, y: V)
    ensures m[k := x][k := y] == m[k := y]
  {
  }

  function NewRow(workflow: string, index: nat): Row {
    Row(workflow, index, Running, None, None, None, None)
  }

  /** A run stages the rest of its plan. */
  lemma {:induction false} StageAll(steps: seq<Step>, r: RunId) returns (more: seq<Step>)
    requires Feasible(steps)
    requires var s := After(steps); r in s.phases && s.phases[r].Persisting? && r in s.db.rows
    requires var s := After(steps); var p := s.phases[r];
             p.staged <= Plan(r, s.db.rows[r].workflow, p.before, p.cycle)
    ensures Feasible(more)
    ensures var s := After(steps); var p := s.phases[r];
            After(more) == s.(phases := s.phases[r :=
              Persisting(p.before, p.cycle, Plan(r, s.db.rows[r].workflow, p.before, p.cycle))])
    decreases var s := After(steps); var p := s.phases[r];
              |Plan(r, s.db.rows[r].workflow, p.before, p.cycle)| - |p.staged|
  {
    var s := After(steps);
    var p := s.phases[r];
    var plan := Plan(r, s.db.rows[r].workflow, p.before, p.cycle);
    if |p.staged| == |plan| {
      more := steps;
      assert p.staged == plan && p == Persisting(p.before, p.cycle, plan);
      assert s.phases[r := p] == s.phases;
    } else {
      Take(steps, StageWrite(r));
      assert p.staged + [plan[|p.staged|]] <= plan;
      more := StageAll(steps + [StageWrite(r)], r);
    }
  }

  lemma NextIndexIsFree(db: Db, workflow: string)
    ensures NextIndex(db, workflow) !in Indices(db, workflow)
  {
  }

  lemma ReachesAllocated(steps: seq<Step>, r: RunId, workflow: string, before: Option<string>)
    returns (more: seq<Step>)
    requires Feasible(steps) && r !in After(steps).phases
    ensures Feasible(more)
    ensures var s := After(steps);
            After(more) == s.(phases := s.phases[r := Allocated(workflow, before, NextIndex(s.db, workflow))])
  {
    var s := After(steps);
    Take(steps, Begin(r, workflow, before));
    more := steps + [Begin(r, workflow, before)];
    assert After(more) == s.(phases := s.phases[r := Reading(workflow, before)]);
    Take(more, ReadIndex(r));
    more := more + [ReadIndex(r)];
  }

  lemma ReachesPersisting(steps: seq<Step>, r: RunId, workflow: string, before: Option<string>, cycle: Cycle)
    returns (more: seq<Step>)
    requires Feasible(steps) && r !in After(steps).phases
    ensures Feasible(more)
    ensures var s := After(steps);
            After(more) == State(s.phases[r := Persisting(before, cycle, [])],
                                 s.db.(rows := s.db.rows[r := NewRow(workflow, NextIndex(s.db, workflow))]), s.commits)
  {
    var s := After(steps);
    var n := NextIndex(s.db, workflow);
    NextIndexIsFree(s.db, workflow);
    more := ReachesAllocated(steps, r, workflow, before);
    Take(more, InsertRow(r));
    more := more + [InsertRow(r)];
    assert After(more) == State(s.phases[r := Solving(before)], s.db.(rows := s.db.rows[r := NewRow(workflow, n)]),
      s.commits);
    Take(more, SolveSucceeds(r, cycle));
    more := more + [SolveSucceeds(r, cycle)];
  }

  /** A staged transaction reads the best score, closes the row, audits, and is ready to commit. */
  lemma ClosesTransaction(steps: seq<Step>, r: RunId) returns (more: seq<Step>)
    requires Feasible(steps)
    requires var s := After(steps); r in s.phases && s.phases[r].Persisting? && r in s.db.rows
    requires var s := After(steps); var p := s.phases[r];
             p.staged == Plan(r, s.db.rows[r].workflow, p.before, p.cycle)
    ensures Feasible(more)
    ensures var s := After(steps); var p := s.phases[r];
            var best := MaxOf(BestScores(s.db.(rows := s.db.rows - {r}), s.db.rows[r].workflow));
            After(more) == s.(phases := s.phases[r :=
              Committing(p.before, p.cycle, p.staged + [CompletedAudit(r)],
                         Closed(s.db.rows[r], r, p.before, p.cycle, best), |s.commits|)])
  {
    var s := After(steps);
    var p := s.phases[r];
    var best := MaxOf(BestScores(s.db.(rows := s.db.rows - {r}), s.db.rows[r].workflow));
    Take(steps, ReadBest(r));
    more := steps + [ReadBest(r)];
    assert After(more) == s.(phases := s.phases[r := Closing(p.before, p.cycle, p.staged, best, |s.commits|)]);
    Take(more, StageRow(r));
    more := more + [StageRow(r)];
    Take(more, StageAudit(r));
    more := more + [StageAudit(r)];
  }

  /** A new run, left alone, reaches its COMMIT with everything staged. */
  lemma ReachesCommit(steps: seq<Step>, r: RunId, workflow: string, before: Option<string>, cycle: Cycle)
    returns (more: seq<Step>)
    requires Feasible(steps) && r !in After(steps).phases
    ensures Feasible(more)
    ensures var s := After(steps);
            var row := NewRow(workflow, NextIndex(s.db, workflow));
            var best := MaxOf(BestScores(s.db, workflow));
            After(more) == State(
              s.phases[r := Committing(before, cycle, Plan(r, workflow, before, cycle) + [CompletedAudit(r)],
                                       Closed(row, r, before, cycle, best), |s.commits|)],
              s.db.(rows := s.db.rows[r := row]), s.commits)
  {
    var s := After(steps);
    AlwaysInStep(steps);
    var row := NewRow(workflow, NextIndex(s.db, workflow));
    var plan := Plan(r, workflow, before, cycle);
    more := ReachesPersisting(steps, r, workflow, before, cycle);
    more := StageAll(more, r);
    Overwrite(s.phases, r, Persisting(before, cycle, []), Persisting(before, cycle, plan));
    var staged := After(more);
    assert staged == State(s.phases[r := Persisting(before, cycle, plan)], s.db.(rows := s.db.rows[r := row]),
      s.commits);
    assert s.db.rows[r := row] - {r} == s.db.rows;
    assert staged.db.(rows := staged.db.rows - {r}) == s.db;
    more := ClosesTransaction(more, r);
    Overwrite(s.phases, r, Persisting(before, cycle, plan), After(more).phases[r]);
  }

  /**
   Any cycle can end in a `sandbox-error` row that keeps all its phase-3 rows: the COMMIT
   takes effect, its await raises, and the handler overwrites the state.
   */
  lemma InterruptedCommit(workflow: string, before: Option<string>, cycle: Cycle) returns (steps: seq<Step>)
    ensures Feasible(steps) && 0 in After(steps).db.rows
    ensures After(steps).db.rows[0].state == SandboxError
    ensures WritesOf(After(steps).db.writes, 0) == Plan(0, workflow, before, cycle) + [CompletedAudit(0)]
    ensures After(steps).db.rows[0].valScore == Some(Round(cycle.valScore))
  {
    var start: seq<Step> := [];
    steps := ReachesCommit(start, 0, workflow, before, cycle);
    var staged := After(steps).phases[0].staged;
    PlanByRun(0, workflow, before, cycle);
    WritesOfOneRun(staged, 0, 0);
    assert After(steps).db.writes + staged == staged;
    Take(steps, CommitInterrupted(0));
    steps := steps + [CommitInterrupted(0)];
    Take(steps, WriteSandboxError(0));
    steps := steps + [WriteSandboxError(0)];
  }

  /**
   Overlapping phase 3s can report a falling best-ever score: whenever a first run scores
   higher than a second that has read the table too early, the second commits the lower one.
   */
  lemma OverlapCanFall(workflow: string, high: Cycle, low: Cycle) returns (steps: seq<Step>)
    requires Round(low.valScore) < Round(high.valScore)
    ensures Feasible(steps) && !NonDecreasing(After(steps), workflow)
  {
    var first, second: Row;
    steps, first, second := BothReady(workflow, high, low);
    var both := After(steps);
    Take(steps, CommitAcknowledged(0));
    steps := steps + [CommitAcknowledged(0)];
    var one := After(steps);
    assert one.phases[1] == both.phases[1] && one.db.rows[0] == first && one.commits == [Commit(0, 0)];
    Take(steps, CommitAcknowledged(1));
    steps := steps + [CommitAcknowledged(1)];
    var s := After(steps);
    assert s.db.rows[0] == first && s.db.rows[1] == second;
    assert s.commits == [Commit(0, 0), Commit(1, 0)];
    assert Reported(s.db, s.commits[0].run, workflow) && Reported(s.db, s.commits[1].run, workflow);
  }

  /** Two runs, both past their best-score query, neither committed. */
  lemma BothReady(workflow: string, high: Cycle, low: Cycle) returns (steps: seq<Step>, first: Row, second: Row)
    ensures Feasible(steps)
    ensures var s := After(steps);
            && 0 in s.phases && s.phases[0].Committing? && s.phases[0].row == first && s.phases[0].readAt == 0
            && 1 in s.phases && s.phases[1].Committing? && s.phases[1].row == second && s.phases[1].readAt == 0
            && s.commits == []
    ensures first.workflow == workflow == second.workflow
    ensures first.bestAfter == Some(Round(high.valScore)) && second.bestAfter == Some(Round(low.valScore))
  {
    var start: seq<Step> := [];
    steps := ReachesCommit(start, 0, workflow, None, high);
    assert BestScores(After(start).db, workflow) == {};
    assert BestScores(After(steps).db, workflow) == {};
    first := After(steps).phases[0].row;
    steps := ReachesCommit(steps, 1, workflow, None, low);
    second := After(steps).phases[1].row;
  }
}
