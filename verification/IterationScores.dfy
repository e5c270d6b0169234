/**
 What the interleaved iterations keep true of the `iterations` table as a whole: the
 best-ever score it reports, the order in which that score moves, and the indices.
 */
module IterationScores {
  import opened Text
  import opened Scores
  import opened IterationRunner

  // ---------------------------------------------------------------------------
  // The best-ever score
  // ---------------------------------------------------------------------------

  ghost function ValScores(db: Db, workflow: string): set<Stored> {
    set r | r in db.rows && db.rows[r].workflow == workflow && db.rows[r].valScore.Some? :: db.rows[r].valScore.value
  }

  /** Some row other than `r` of this workflow scored exactly `b`. */
  ghost predicate Attained(db: Db, workflow: string, r: RunId, b: Stored) {
    exists q :: q in db.rows && q != r && db.rows[q].workflow == workflow && db.rows[q].valScore == Some(b)
  }

  /** A closed row's best-ever score is its own score, or a higher one some other row attained. */
  ghost predicate ScoredRow(db: Db, r: RunId, row: Row) {
    && row.valScore.Some? && row.bestAfter.Some? && row.state != Running
    && row.bestAfter.value == (if row.bestBefore.Some? then MaxStored(row.bestBefore.value, row.valScore.value)
                               else row.valScore.value)
    && (row.bestAfter.value == row.valScore.value || Attained(db, row.workflow, r, row.bestAfter.value))
  }

  ghost predicate ScoredPhase(db: Db, r: RunId, p: Phase)
  {
    match p
    case Closing(_, _, _, best, _) =>
      r in db.rows && (best.Some? ==> Attained(db, db.rows[r].workflow, r, best.value))
    case Auditing(_, _, _, row, _) =>
      r in db.rows && row.workflow == db.rows[r].workflow && row.index == db.rows[r].index && ScoredRow(db, r, row)
    case Committing(_, _, _, row, _) =>
      r in db.rows && row.workflow == db.rows[r].workflow && row.index == db.rows[r].index && ScoredRow(db, r, row)
    case _ => true
  }

  ghost predicate Scored(s: State) {
    && (forall r | r in s.db.rows ::
          (s.db.rows[r].valScore.None? && s.db.rows[r].bestAfter.None?) || ScoredRow(s.db, r, s.db.rows[r]))
    && (forall r | r in s.phases :: ScoredPhase(s.db, r, s.phases[r]))
  }

  /** Nothing attained is ever lost: rows keep their workflow and, once scored, their score. */
  ghost predicate Grows(db: Db, db': Db) {
    forall r | r in db.rows ::
      && r in db'.rows && db'.rows[r].workflow == db.rows[r].workflow
      && (db.rows[r].valScore.Some? ==> db'.rows[r].valScore == db.rows[r].valScore)
  }

  lemma StepGrows(s: State, step: Step)
    requires Lifecycle(s) && Scored(s) && Enabled(s, step)
    ensures Grows(s.db, Next(s, step).db)
  {
  }

  lemma ClosedIsScored(db: Db, r: RunId, before: Option<string>, cycle: Cycle, best: Option<Stored>)
    requires r in db.rows && (best.Some? ==> Attained(db, db.rows[r].workflow, r, best.value))
    ensures ScoredRow(db, r, Closed(db.rows[r], r, before, cycle, best))
  {
    if best.Some? {
      RoundOfMax(best.value, cycle.valScore);
    }
  }

  lemma BestIsAttained(s: State, r: RunId)
    requires Scored(s) && r in s.db.rows && s.db.rows[r].valScore.None?
    ensures var best := MaxOf(BestScores(s.db.(rows := s.db.rows - {r}), s.db.rows[r].workflow));
            best.Some? ==> Attained(s.db, s.db.rows[r].workflow, r, best.value)
  {
    var w := s.db.rows[r].workflow;
    var rest := s.db.(rows := s.db.rows - {r});
    var best := MaxOf(BestScores(rest, w));
    if best.Some? {
      var q :| q in rest.rows && rest.rows[q].workflow == w && rest.rows[q].state != Running
               && rest.rows[q].bestAfter == Some(best.value);
      var row := s.db.rows[q];
      assert ScoredRow(s.db, q, row);
      if row.valScore != row.bestAfter {
        var t :| t in s.db.rows && t != q && s.db.rows[t].workflow == w && s.db.rows[t].valScore == Some(best.value);
      }
    }
  }

  lemma PhaseScored(db: Db, db': Db, r: RunId, p: Phase)
    requires ScoredPhase(db, r, p) && Grows(db, db')
    requires r in db.rows ==> db'.rows[r].index == db.rows[r].index
    ensures ScoredPhase(db', r, p)
  {
  }

  /** The phase a step leaves its run in, against the tables before the step. */
  lemma NewPhaseScored(s: State, step: Step)
    requires Lifecycle(s) && Scored(s) && Enabled(s, step)
    ensures ScoredPhase(s.db, step.run, Next(s, step).phases[step.run])
  {
    var r := step.run;
    if step.ReadBest? {
      BestIsAttained(s, r);
    } else if step.StageRow? {
      var p := s.phases[r];
      ClosedIsScored(s.db, r, p.before, p.cycle, p.best);
    }
  }

  lemma PhasesKeepScored(s: State, step: Step)
    requires Lifecycle(s) && Scored(s) && Enabled(s, step)
    ensures var s' := Next(s, step);
            forall q | q in s'.phases :: ScoredPhase(s'.db, q, s'.phases[q])
  {
    var s', r := Next(s, step), step.run;
    StepGrows(s, step);
    StepKeepsIndices(s, step);
    NewPhaseScored(s, step);
    forall q | q in s'.phases ensures ScoredPhase(s'.db, q, s'.phases[q]) {
      PhaseScored(s.db, s'.db, q, s'.phases[q]);
    }
  }

  /** A step changes its own run's row only, and scores it only by committing. */
  lemma NewScores(s: State, step: Step)
    requires Lifecycle(s) && Enabled(s, step)
    ensures var s', r := Next(s, step), step.run;
            forall q | q in s'.db.rows ::
              || (q in s.db.rows && s'.db.rows[q] == s.db.rows[q])
              || (q == r && q in s.db.rows && s'.db.rows[q] == s.db.rows[q].(state := SandboxError))
              || (q == r && q in s.phases && s.phases[q].Committing? && s'.db.rows[q] == s.phases[q].row)
              || (q == r && s'.db.rows[q].valScore.None? && s'.db.rows[q].bestAfter.None?)
  {
  }

  lemma ScoredRowGrows(db: Db, db': Db, r: RunId, row: Row)
    requires ScoredRow(db, r, row) && Grows(db, db')
    ensures ScoredRow(db', r, row) && ScoredRow(db', r, row.(state := SandboxError))
  {
  }

  lemma StepKeepsScored(s: State, step: Step)
    requires Lifecycle(s) && Scored(s) && Enabled(s, step)
    ensures Scored(Next(s, step))
  {
    var s' := Next(s, step);
    PhasesKeepScored(s, step);
    StepGrows(s, step);
    NewScores(s, step);
    forall q | q in s'.db.rows
      ensures (s'.db.rows[q].valScore.None? && s'.db.rows[q].bestAfter.None?) || ScoredRow(s'.db, q, s'.db.rows[q])
    {
      if q in s.db.rows && ScoredRow(s.db, q, s.db.rows[q]) {
        ScoredRowGrows(s.db, s'.db, q, s.db.rows[q]);
      }
      if q in s.phases && s.phases[q].Committing? {
        assert ScoredPhase(s.db, q, s.phases[q]);
        ScoredRowGrows(s.db, s'.db, q, s.phases[q].row);
      }
    }
  }

  lemma {:induction false} AlwaysScored(steps: seq<Step>)
    requires Feasible(steps)
    ensures Scored(After(steps))
    decreases |steps|
  {
    if steps != [] {
      var n := |steps| - 1;
      AlwaysScored(steps[..n]);
      AlwaysInStep(steps[..n]);
      StepKeepsScored(After(steps[..n]), steps[n]);
    }
  }

  /**
   Under every interleaving, stale reads included: the highest best-ever score in a
   workflow's rows is the highest score any of its rows was closed with.
   */
  lemma BestEverIsTopScore(steps: seq<Step>, workflow: string)
    requires Feasible(steps)
    ensures MaxOf(BestScores(After(steps).db, workflow)) == MaxOf(ValScores(After(steps).db, workflow))
  {
    AlwaysScored(steps);
    var db := After(steps).db;
    forall b | b in BestScores(db, workflow) ensures b in ValScores(db, workflow) {
      var q :| q in db.rows && db.rows[q].workflow == workflow && db.rows[q].bestAfter == Some(b)
               && db.rows[q].state != Running;
      assert ScoredRow(db, q, db.rows[q]);
    }
    forall v | v in ValScores(db, workflow) ensures Dominated(v, BestScores(db, workflow)) {
      var q :| q in db.rows && db.rows[q].workflow == workflow && db.rows[q].valScore == Some(v);
      assert ScoredRow(db, q, db.rows[q]);
      assert db.rows[q].bestAfter.value in BestScores(db, workflow);
    }
    SameMax(BestScores(db, workflow), ValScores(db, workflow));
  }

  ghost predicate Dominated(v: int, s: set<int>) {
    exists b :: b in s && v <= b
  }

  lemma SameMax(s: set<int>, t: set<int>)
    requires forall b | b in s :: b in t
    requires forall v | v in t :: Dominated(v, s)
    ensures MaxOf(s) == MaxOf(t)
  {
    var x, y := MaxOf(s), MaxOf(t);
    if y.Some? {
      assert Dominated(y.value, s);
      assert s != {};
    } else {
      assert s == {};
    }
  }

  // ---------------------------------------------------------------------------
  // Order of commits
  // ---------------------------------------------------------------------------

  /** `b` is no lower than what the first `n` commits on this workflow reported. */
  ghost predicate Above(db: Db, commits: seq<Commit>, n: nat, workflow: string, b: Stored)
    requires n <= |commits|
  {
    forall i | 0 <= i < n :: Reported(db, commits[i].run, workflow) ==> db.rows[commits[i].run].bestAfter.value <= b
  }

  ghost predicate Reported(db: Db, r: RunId, workflow: string) {
    r in db.rows && db.rows[r].workflow == workflow && db.rows[r].bestAfter.Some?
  }

  ghost predicate OrderedPhase(s: State, r: RunId, p: Phase) {
    match p
    case Closing(_, _, _, best, readAt) =>
      && r in s.db.rows && readAt <= |s.commits|
      && forall i | 0 <= i < readAt :: Reported(s.db, s.commits[i].run, s.db.rows[r].workflow) ==>
           best.Some? && s.db.rows[s.commits[i].run].bestAfter.value <= best.value
    case Auditing(_, _, _, row, readAt) =>
      row.bestAfter.Some? && readAt <= |s.commits| && Above(s.db, s.commits, readAt, row.workflow, row.bestAfter.value)
    case Committing(_, _, _, row, readAt) =>
      row.bestAfter.Some? && readAt <= |s.commits| && Above(s.db, s.commits, readAt, row.workflow, row.bestAfter.value)
    case _ => true
  }

  ghost predicate OrderedCommit(s: State, k: nat)
    requires k < |s.commits|
  {
    var c := s.commits[k];
    && c.run in s.db.rows && s.db.rows[c.run].bestAfter.Some? && s.db.rows[c.run].state != Running && c.readAt <= k
    && Above(s.db, s.commits, c.readAt, s.db.rows[c.run].workflow, s.db.rows[c.run].bestAfter.value)
  }

  ghost predicate Ordered(s: State) {
    && (forall k: nat | k < |s.commits| :: OrderedCommit(s, k))
    && (forall r | r in s.phases :: OrderedPhase(s, r, s.phases[r]))
  }

  /** Rows named by a commit keep what they reported; commits are only appended. */
  ghost predicate KeepsReports(s: State, s': State) {
    && s.commits <= s'.commits
    && (forall r | r in s.db.rows :: r in s'.db.rows && s'.db.rows[r].workflow == s.db.rows[r].workflow)
    && (forall i | 0 <= i < |s.commits| ::
          && s.commits[i].run in s.db.rows && s.db.rows[s.commits[i].run].bestAfter.Some?
          && s.commits[i].run in s'.db.rows
          && s'.db.rows[s.commits[i].run].bestAfter == s.db.rows[s.commits[i].run].bestAfter
          && s'.db.rows[s.commits[i].run].state != Running)
  }

  lemma StepKeepsReports(s: State, step: Step)
    requires Lifecycle(s) && Scored(s) && Ordered(s) && Enabled(s, step)
    ensures KeepsReports(s, Next(s, step))
  {
    var s', r := Next(s, step), step.run;
    forall i | 0 <= i < |s.commits|
      ensures var c := s.commits[i].run;
              && c in s.db.rows && s.db.rows[c].bestAfter.Some?
              && c in s'.db.rows && s'.db.rows[c].bestAfter == s.db.rows[c].bestAfter
              && s'.db.rows[c].state != Running
    {
      assert OrderedCommit(s, i);
      assert s.commits[i].run == r ==> !s.phases[r].Committing?;
    }
  }

  lemma OldPhaseOrdered(s: State, s': State, r: RunId, p: Phase)
    requires KeepsReports(s, s') && OrderedPhase(s, r, p)
    ensures OrderedPhase(s', r, p)
  {
  }

  lemma OldCommitOrdered(s: State, s': State, k: nat)
    requires KeepsReports(s, s') && k < |s.commits| && OrderedCommit(s, k)
    ensures OrderedCommit(s', k)
  {
    assert s'.commits[k] == s.commits[k];
  }

  lemma ReadBestOrdered(s: State, r: RunId)
    requires Lifecycle(s) && Ordered(s) && Enabled(s, ReadBest(r))
    ensures OrderedPhase(s, r, Next(s, ReadBest(r)).phases[r])
  {
    var w := s.db.rows[r].workflow;
    var scores := BestScores(s.db.(rows := s.db.rows - {r}), w);
    forall i | 0 <= i < |s.commits| && Reported(s.db, s.commits[i].run, w)
      ensures s.db.rows[s.commits[i].run].bestAfter.value in scores
    {
      assert OrderedCommit(s, i);
      var c := s.commits[i].run;
      assert c != r;
      var rest := s.db.(rows := s.db.rows - {r});
      assert c in rest.rows && rest.rows[c] == s.db.rows[c];
    }
  }

  lemma StageRowOrdered(s: State, r: RunId)
    requires Lifecycle(s) && Ordered(s) && Enabled(s, StageRow(r))
    ensures OrderedPhase(s, r, Next(s, StageRow(r)).phases[r])
  {
    var p := s.phases[r];
    if p.best.Some? {
      RoundOfMax(p.best.value, p.cycle.valScore);
    }
  }

  lemma StepKeepsOrdered(s: State, step: Step)
    requires Lifecycle(s) && Scored(s) && Ordered(s) && Enabled(s, step)
    ensures Ordered(Next(s, step))
  {
    var s', r := Next(s, step), step.run;
    StepKeepsReports(s, step);
    forall q | q in s'.phases ensures OrderedPhase(s', q, s'.phases[q]) {
      var p := s'.phases[q];
      if q == r && step.ReadBest? {
        ReadBestOrdered(s, r);
      } else if q == r && step.StageRow? {
        StageRowOrdered(s, r);
      }
      assert OrderedPhase(s, q, p);
      OldPhaseOrdered(s, s', q, p);
    }
    forall k: nat | k < |s'.commits| ensures OrderedCommit(s', k) {
      if k < |s.commits| {
        OldCommitOrdered(s, s', k);
      } else {
        NewCommitOrdered(s, step);
      }
    }
  }

  lemma NewCommitOrdered(s: State, step: Step)
    requires Lifecycle(s) && Scored(s) && Ordered(s) && Enabled(s, step)
    requires step.CommitAcknowledged? || step.CommitInterrupted?
    ensures OrderedCommit(Next(s, step), |s.commits|)
  {
    var s', r := Next(s, step), step.run;
    StepKeepsReports(s, step);
    var p := s.phases[r];
    assert ScoredPhase(s.db, r, p);
    OldPhaseOrdered(s, s', r, p);
    assert s'.db.rows[r] == p.row && s'.commits[|s.commits|] == Commit(r, p.readAt);
  }

  lemma {:induction false} AlwaysOrdered(steps: seq<Step>)
    requires Feasible(steps)
    ensures Ordered(After(steps))
    decreases |steps|
  {
    if steps != [] {
      var n := |steps| - 1;
      AlwaysOrdered(steps[..n]);
      AlwaysScored(steps[..n]);
      AlwaysInStep(steps[..n]);
      StepKeepsOrdered(After(steps[..n]), steps[n]);
    }
  }

  /** No phase 3 of this workflow committed between another's best-score query and its commit. */
  ghost predicate NoOverlap(s: State, workflow: string) {
    forall i, k | 0 <= i < k < |s.commits| ::
      Reported(s.db, s.commits[i].run, workflow) && Reported(s.db, s.commits[k].run, workflow) ==>
        i < s.commits[k].readAt
  }

  /** The best-ever score never falls from one commit to a later one. */
  ghost predicate NonDecreasing(s: State, workflow: string) {
    forall i, k | 0 <= i < k < |s.commits| ::
      Reported(s.db, s.commits[i].run, workflow) && Reported(s.db, s.commits[k].run, workflow) ==>
        s.db.rows[s.commits[i].run].bestAfter.value <= s.db.rows[s.commits[k].run].bestAfter.value
  }

  lemma NoOverlapNonDecreasing(steps: seq<Step>, workflow: string)
    requires Feasible(steps) && NoOverlap(After(steps), workflow)
    ensures NonDecreasing(After(steps), workflow)
  {
    AlwaysOrdered(steps);
    var s := After(steps);
    forall i, k | 0 <= i < k < |s.commits|
                  && Reported(s.db, s.commits[i].run, workflow) && Reported(s.db, s.commits[k].run, workflow)
      ensures s.db.rows[s.commits[i].run].bestAfter.value <= s.db.rows[s.commits[k].run].bestAfter.value
    {
      assert OrderedCommit(s, k);
    }
  }

  /**
   For every run and every two commits on a workflow: the later one reports a lower best-ever
   score exactly if it read the table before the earlier one committed, and neither its own
   score nor the best it read reaches the earlier one's.
   */
  lemma FallsIff(steps: seq<Step>, workflow: string, i: nat, k: nat)
    requires Feasible(steps) && i < k < |After(steps).commits|
    requires var s := After(steps);
             Reported(s.db, s.commits[i].run, workflow) && Reported(s.db, s.commits[k].run, workflow)
    ensures var s := After(steps);
            var earlier, later := s.db.rows[s.commits[i].run].bestAfter.value, s.db.rows[s.commits[k].run];
            later.bestAfter.value < earlier <==>
              && i >= s.commits[k].readAt
              && later.valScore.Some? && later.valScore.value < earlier
              && (later.bestBefore.Some? ==> later.bestBefore.value < earlier)
  {
    AlwaysScored(steps);
    AlwaysOrdered(steps);
    var s := After(steps);
    assert OrderedCommit(s, k);
    assert ScoredRow(s.db, s.commits[k].run, s.db.rows[s.commits[k].run]);
  }

  // ---------------------------------------------------------------------------
  // Indices
  // ---------------------------------------------------------------------------

  ghost predicate Below(db: Db, workflow: string, n: nat) {
    forall j: nat | j < n :: j in Indices(db, workflow)
  }

  ghost predicate Dense(s: State) {
    && (forall r | r in s.db.rows :: Below(s.db, s.db.rows[r].workflow, s.db.rows[r].index))
    && DistinctIndices(s.db)
    && (forall r | r in s.phases && s.phases[r].Allocated? :: Below(s.db, s.phases[r].workflow, s.phases[r].index))
  }

  /** No step changes a row's workflow or index. */
  ghost predicate KeepsIndices(db: Db, db': Db) {
    forall r | r in db.rows ::
      r in db'.rows && db'.rows[r].workflow == db.rows[r].workflow && db'.rows[r].index == db.rows[r].index
  }

  lemma BelowGrows(db: Db, db': Db, workflow: string, n: nat)
    requires KeepsIndices(db, db') && Below(db, workflow, n)
    ensures Below(db', workflow, n)
  {
    forall j: nat | j < n ensures j in Indices(db', workflow) {
      assert j in Indices(db, workflow);
      var r :| r in db.rows && db.rows[r].workflow == workflow && db.rows[r].index == j;
      assert r in db'.rows;
    }
  }

  lemma NextIndexIsBelow(s: State, workflow: string)
    requires Dense(s)
    ensures Below(s.db, workflow, NextIndex(s.db, workflow))
  {
    var used: set<int> := Indices(s.db, workflow);
    var m := MaxOf(used);
    if m.Some? {
      var r :| r in s.db.rows && s.db.rows[r].workflow == workflow && s.db.rows[r].index == m.value;
      assert Below(s.db, workflow, s.db.rows[r].index);
      forall j: nat | j < NextIndex(s.db, workflow) ensures j in Indices(s.db, workflow) {
        if j == m.value {
          assert m.value in used;
        }
      }
    }
  }

  lemma StepKeepsIndices(s: State, step: Step)
    requires Lifecycle(s) && Scored(s) && Enabled(s, step)
    ensures KeepsIndices(s.db, Next(s, step).db)
  {
    assert step.run in s.phases ==> ScoredPhase(s.db, step.run, s.phases[step.run]);
  }

  ghost predicate DistinctIndices(db: Db) {
    forall q, r | q in db.rows && r in db.rows && q != r ::
      db.rows[q].workflow == db.rows[r].workflow ==> db.rows[q].index != db.rows[r].index
  }

  lemma StepKeepsDistinct(s: State, step: Step)
    requires Lifecycle(s) && Scored(s) && Enabled(s, step) && DistinctIndices(s.db)
    ensures DistinctIndices(Next(s, step).db)
  {
    StepKeepsIndices(s, step);
    if step.InsertRow? {
      var p := s.phases[step.run];
      forall q | q in s.db.rows && s.db.rows[q].workflow == p.workflow
        ensures s.db.rows[q].index in Indices(s.db, p.workflow)
      {
      }
    }
  }

  /** Where a step can leave an allocated index or a row that was not there before. */
  lemma NewIndices(s: State, step: Step)
    requires Lifecycle(s) && Enabled(s, step)
    ensures var s' := Next(s, step);
            && (forall q | q in s'.phases && s'.phases[q].Allocated? ::
                  (q in s.phases && s'.phases[q] == s.phases[q])
                  || (step == ReadIndex(q) && s'.phases[q].index == NextIndex(s.db, s'.phases[q].workflow)))
            && (forall q | q in s'.db.rows && q !in s.db.rows ::
                  step == InsertRow(q) && s.phases[q].workflow == s'.db.rows[q].workflow
                  && s.phases[q].index == s'.db.rows[q].index)
  {
  }

  lemma StepKeepsDense(s: State, step: Step)
    requires Lifecycle(s) && Scored(s) && Dense(s) && Enabled(s, step)
    ensures Dense(Next(s, step))
  {
    StepKeepsIndices(s, step);
    StepKeepsDistinct(s, step);
    NewIndices(s, step);
    if step.ReadIndex? {
      NextIndexIsBelow(s, s.phases[step.run].workflow);
    }
    DenseOver(s, Next(s, step));
  }

  lemma DenseOver(s: State, s': State)
    requires Dense(s) && KeepsIndices(s.db, s'.db) && DistinctIndices(s'.db)
    requires forall q | q in s'.phases && s'.phases[q].Allocated? ::
               (q in s.phases && s'.phases[q] == s.phases[q]) || Below(s.db, s'.phases[q].workflow, s'.phases[q].index)
    requires forall q | q in s'.db.rows && q !in s.db.rows :: Below(s.db, s'.db.rows[q].workflow, s'.db.rows[q].index)
    ensures Dense(s')
  {
    forall q | q in s'.phases && s'.phases[q].Allocated?
      ensures Below(s'.db, s'.phases[q].workflow, s'.phases[q].index)
    {
      BelowGrows(s.db, s'.db, s'.phases[q].workflow, s'.phases[q].index);
    }
    forall q | q in s'.db.rows ensures Below(s'.db, s'.db.rows[q].workflow, s'.db.rows[q].index) {
      BelowGrows(s.db, s'.db, s'.db.rows[q].workflow, s'.db.rows[q].index);
    }
  }

  lemma {:induction false} AlwaysDense(steps: seq<Step>)
    requires Feasible(steps)
    ensures Dense(After(steps))
    decreases |steps|
  {
    if steps != [] {
      var n := |steps| - 1;
      AlwaysDense(steps[..n]);
      AlwaysScored(steps[..n]);
      AlwaysInStep(steps[..n]);
      StepKeepsDense(After(steps[..n]), steps[n]);
    }
  }

  /** However reads and inserts interleave, a workflow's indices are 0..n-1, each used once. */
  lemma IndicesAreDense(steps: seq<Step>, workflow: string)
    requires Feasible(steps)
    ensures var db := After(steps).db;
            && (forall j: nat :: j in Indices(db, workflow) <==> j < NextIndex(db, workflow))
            && DistinctIndices(db)
  {
    AlwaysDense(steps);
    var db := After(steps).db;
    NextIndexIsBelow(After(steps), workflow);
  }
}
