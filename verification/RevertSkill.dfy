/**
 Reverting a skill's head to an earlier version: three reads, then a compare-and-swap of
 the head with an audit entry in the same transaction. Reverts run interleaved with each
 other, with deployments that move a head, and with registrations of new versions.
 */
module RevertSkill {
  import opened Text

  type VersionId = nat
  type ProcessId = nat

  /** A `skill_versions` row; rows are inserted and never updated. */
  datatype Version = Version(skill: string, versionSeq: nat, content: string)

  /** One change of a skill's head, by a revert or (`None`) by another writer. */
  datatype Update = Update(skill: string, before: Option<VersionId>, after: VersionId, writer: Option<ProcessId>)

  /** A `proposal-rolled-back` entry; `at` is the position of its update among all updates. */
  datatype Rollback = Rollback(skill: string, fromSeq: Option<nat>, toSeq: nat, at: nat, writer: ProcessId)

  datatype ExitCode = Completed | Unknown | NoOp | HeadMoved

  datatype Phase =
    | Started(skill: string, toSeq: nat, dryRun: bool)
    | SawSkill(skill: string, toSeq: nat, dryRun: bool, prior: Option<VersionId>)
    | SawTarget(skill: string, toSeq: nat, dryRun: bool, prior: Option<VersionId>, target: VersionId)
    | Ready(skill: string, toSeq: nat, prior: Option<VersionId>, target: VersionId, fromSeq: Option<nat>)
    | Exited(code: ExitCode, dryRun: bool)

  datatype State = State(
    heads: map<string, Option<VersionId>>,
    versions: map<VersionId, Version>,
    updates: seq<Update>,
    log: seq<Rollback>,
    phases: map<ProcessId, Phase>)

  datatype Step =
    | Begin(p: ProcessId, skill: string, toSeq: nat, dryRun: bool)
    | ReadSkill(p: ProcessId)
    | ReadTarget(p: ProcessId)
    | ReadCurrent(p: ProcessId)
    | Swap(p: ProcessId)                                        // the transaction, committed
    | SwapUnacknowledged(p: ProcessId)                          // committed, but COMMIT raised
    | ConnectionLost(p: ProcessId)
    | Deploy(skill: string, version: VersionId)                 // another writer moves the head
    | Register(version: VersionId, row: Version)                // another writer adds a version
    | AddSkill(skill: string)

  ghost predicate IsVersion(s: State, skill: string, v: VersionId) {
    v in s.versions && s.versions[v].skill == skill
  }

  ghost predicate Enabled(s: State, step: Step) {
    match step
    case Begin(p, _, _, _) => p !in s.phases
    case ReadSkill(p) => p in s.phases && s.phases[p].Started?
    case ReadTarget(p) => p in s.phases && s.phases[p].SawSkill?
    case ReadCurrent(p) => p in s.phases && s.phases[p].SawTarget?
    case Swap(p) => p in s.phases && s.phases[p].Ready? && s.phases[p].skill in s.heads
    case SwapUnacknowledged(p) =>
      && p in s.phases && s.phases[p].Ready? && s.phases[p].skill in s.heads
      && s.heads[s.phases[p].skill] == s.phases[p].prior
    case ConnectionLost(p) => p in s.phases && !s.phases[p].Exited?
    case Deploy(skill, v) => skill in s.heads && IsVersion(s, skill, v)
    // primary key, and UNIQUE (skill_id, version_seq)
    case Register(v, row) =>
      v !in s.versions &&
      forall u | u in s.versions :: s.versions[u].skill == row.skill ==> s.versions[u].versionSeq != row.versionSeq
    case AddSkill(skill) => skill !in s.heads
  }

  ghost predicate IsTarget(s: State, skill: string, toSeq: nat, v: VersionId) {
    IsVersion(s, skill, v) && s.versions[v].versionSeq == toSeq
  }

  ghost function SeqOf(s: State, head: Option<VersionId>): Option<nat> {
    if head.Some? && head.value in s.versions then Some(s.versions[head.value].versionSeq) else None
  }

  /** Whether a process still under way was asked for a dry run; past the last read it was not. */
  predicate DryRun(f: Phase) {
    !f.Ready? && f.dryRun
  }

  ghost function Exit(s: State, p: ProcessId, code: ExitCode): State
    requires p in s.phases
  {
    s.(phases := s.phases[p := Exited(code, DryRun(s.phases[p]))])
  }

  ghost function MoveHead(s: State, skill: string, v: VersionId, writer: Option<ProcessId>): State
    requires skill in s.heads
  {
    s.(heads := s.heads[skill := Some(v)], updates := s.updates + [Update(skill, s.heads[skill], v, writer)])
  }

  /** The transaction's effect: the head moves and the entry is appended, together. */
  ghost function Swapped(s: State, p: ProcessId): State
    requires p in s.phases && s.phases[p].Ready? && s.phases[p].skill in s.heads
  {
    var f := s.phases[p];
    var entry := Rollback(f.skill, f.fromSeq, f.toSeq, |s.updates|, p);
    MoveHead(s, f.skill, f.target, Some(p)).(log := s.log + [entry])
  }

  ghost function Next(s: State, step: Step): State
    requires Enabled(s, step)
  {
    match step
    case Begin(p, skill, toSeq, dryRun) => s.(phases := s.phases[p := Started(skill, toSeq, dryRun)])
    case ReadSkill(p) =>
      var f := s.phases[p];
      if f.skill !in s.heads then Exit(s, p, Unknown)
      else s.(phases := s.phases[p := SawSkill(f.skill, f.toSeq, f.dryRun, s.heads[f.skill])])
    case ReadTarget(p) =>
      var f := s.phases[p];
      if !exists v :: IsTarget(s, f.skill, f.toSeq, v) then Exit(s, p, Unknown)
      else
        var v :| IsTarget(s, f.skill, f.toSeq, v);
        s.(phases := s.phases[p := SawTarget(f.skill, f.toSeq, f.dryRun, f.prior, v)])
    case ReadCurrent(p) =>
      var f := s.phases[p];
      var fromSeq := SeqOf(s, f.prior);
      if fromSeq == Some(f.toSeq) then Exit(s, p, NoOp)
      else if f.dryRun then Exit(s, p, Completed)
      else s.(phases := s.phases[p := Ready(f.skill, f.toSeq, f.prior, f.target, fromSeq)])
    case Swap(p) =>
      var f := s.phases[p];
      if s.heads[f.skill] != f.prior then Exit(s, p, HeadMoved)
      else Exit(Swapped(s, p), p, Completed)
    case SwapUnacknowledged(p) => Exit(Swapped(s, p), p, Unknown)
    case ConnectionLost(p) => Exit(s, p, Unknown)
    case Deploy(skill, v) => MoveHead(s, skill, v, None)
    case Register(v, row) => s.(versions := s.versions[v := row])
    case AddSkill(skill) => s.(heads := s.heads[skill := None])
  }

  const START := State(map[], map[], [], [], map[])

  ghost predicate Feasible(steps: seq<Step>)
    decreases |steps|, 0
  {
    steps == [] ||
    (var n := |steps| - 1; Feasible(steps[..n]) && Enabled(After(steps[..n]), steps[n]))
  }

  ghost function After(steps: seq<Step>): State
    requires Feasible(steps)
    decreases |steps|, 1
  {
    if steps == [] then START
    else var n := |steps| - 1; Next(After(steps[..n]), steps[n])
  }

  // ---------------------------------------------------------------------------
  // The audit log tells the truth
  // ---------------------------------------------------------------------------

  /** The head a skill has after the first `n` updates. */
  ghost function HeadAt(updates: seq<Update>, skill: string, n: nat): Option<VersionId>
    requires n <= |updates|
  {
    if n == 0 then None
    else if updates[n - 1].skill == skill then Some(updates[n - 1].after)
    else HeadAt(updates, skill, n - 1)
  }

  lemma {:induction false} HeadAtPrefix(updates: seq<Update>, more: seq<Update>, skill: string, n: nat)
    requires n <= |updates| && updates <= more
    ensures HeadAt(more, skill, n) == HeadAt(updates, skill, n)
  {
    if n > 0 {
      HeadAtPrefix(updates, more, skill, n - 1);
    }
  }

  /** The entry's update is its writer's, and the entry names the heads just before and just after it. */
  ghost predicate Truthful(s: State, e: Rollback) {
    && e.at < |s.updates|
    && s.updates[e.at].skill == e.skill && s.updates[e.at].writer == Some(e.writer)
    && e.fromSeq == SeqOf(s, HeadAt(s.updates, e.skill, e.at))
    && Some(e.toSeq) == SeqOf(s, HeadAt(s.updates, e.skill, e.at + 1))
    && e.fromSeq != Some(e.toSeq)
  }

  /** What a process has read and can rely on: version rows do not change. */
  ghost predicate Grounded(s: State, f: Phase) {
    match f
    case Started(_, _, _) => true
    case SawSkill(_, _, _, prior) => prior.Some? ==> prior.value in s.versions
    case SawTarget(skill, toSeq, _, prior, target) =>
      (prior.Some? ==> prior.value in s.versions) && IsTarget(s, skill, toSeq, target)
    case Ready(skill, toSeq, prior, target, fromSeq) =>
      (prior.Some? ==> prior.value in s.versions) && IsTarget(s, skill, toSeq, target)
      && fromSeq == SeqOf(s, prior) && fromSeq != Some(toSeq)
    case Exited(_, _) => true
  }

  ghost predicate Sound(s: State) {
    && (forall k | k in s.heads :: s.heads[k].Some? ==> IsVersion(s, k, s.heads[k].value))
    && (forall k | k in s.heads :: s.heads[k] == HeadAt(s.updates, k, |s.updates|))
    && (forall u | u in s.updates :: u.skill in s.heads && u.after in s.versions)
    && (forall p | p in s.phases :: Grounded(s, s.phases[p]))
    && (forall i | 0 <= i < |s.log| :: Truthful(s, s.log[i]))
    && (forall i, j | 0 <= i < j < |s.log| :: s.log[i].at < s.log[j].at)
  }

  /** No step alters a version row, an update or an audit entry: all three only grow. */
  lemma NothingRewritten(s: State, step: Step)
    requires Enabled(s, step)
    ensures var s' := Next(s, step);
            && (forall v | v in s.versions :: v in s'.versions && s'.versions[v] == s.versions[v])
            && s.updates <= s'.updates && s.log <= s'.log
  {
  }

  // ---------------------------------------------------------------------------
  // What an exit code says about a whole run
  // ---------------------------------------------------------------------------

  /** Head updates made by one revert process. */
  ghost function UpdatesBy(updates: seq<Update>, p: ProcessId): nat {
    if updates == [] then 0
    else UpdatesBy(updates[..|updates| - 1], p) + if updates[|updates| - 1].writer == Some(p) then 1 else 0
  }

  /** Audit entries made by one revert process. */
  ghost function EntriesBy(log: seq<Rollback>, p: ProcessId): nat {
    if log == [] then 0
    else EntriesBy(log[..|log| - 1], p) + if log[|log| - 1].writer == p then 1 else 0
  }

  lemma ByAfter(updates: seq<Update>, u: Update, log: seq<Rollback>, e: Rollback, p: ProcessId)
    ensures UpdatesBy(updates + [u], p) == UpdatesBy(updates, p) + if u.writer == Some(p) then 1 else 0
    ensures EntriesBy(log + [e], p) == EntriesBy(log, p) + if e.writer == p then 1 else 0
  {
    assert (updates + [u])[..|updates|] == updates && (log + [e])[..|log|] == log;
  }

  /** How often a process must have moved the head, given where it stands. */
  ghost function Moves(s: State, p: ProcessId, unacknowledged: bool): nat {
    if p !in s.phases || !s.phases[p].Exited? then 0
    else if s.phases[p].code.Completed? && !s.phases[p].dryRun then 1
    else if s.phases[p].code.Unknown? && unacknowledged then 1
    else 0
  }

  ghost predicate Accounted(s: State, p: ProcessId, unacknowledged: bool) {
    && UpdatesBy(s.updates, p) == EntriesBy(s.log, p) == Moves(s, p, unacknowledged)
    && (unacknowledged ==> p in s.phases && s.phases[p].Exited? && s.phases[p].code.Unknown? && !s.phases[p].dryRun)
  }

  /** The step commits no swap. */
  ghost predicate Quiet(s: State, step: Step)
    requires Enabled(s, step)
  {
    !step.Deploy? && !step.SwapUnacknowledged?
    && (step.Swap? ==> s.heads[s.phases[step.p].skill] != s.phases[step.p].prior)
  }

  /** Such a step touches neither the heads nor the log, and ends no process with a success to report. */
  lemma QuietStep(s: State, step: Step, p: ProcessId)
    requires Enabled(s, step) && Quiet(s, step)
    ensures var t := Next(s, step);
      && t.updates == s.updates && t.log == s.log && (p in s.phases ==> p in t.phases)
      && (p in s.phases && s.phases[p].Exited? ==> t.phases[p] == s.phases[p])
      && (p in t.phases && t.phases[p].Exited? && t.phases[p].code.Completed? && !t.phases[p].dryRun ==>
            p in s.phases && s.phases[p].Exited?)
  {
  }

  lemma QuietStepKeepsAccount(s: State, step: Step, p: ProcessId, unacknowledged: bool)
    requires Accounted(s, p, unacknowledged) && Enabled(s, step) && Quiet(s, step)
    ensures Accounted(Next(s, step), p, unacknowledged)
  {
    QuietStep(s, step, p);
  }

  lemma SwapStepKeepsAccount(s: State, step: Step, p: ProcessId, unacknowledged: bool)
    requires Accounted(s, p, unacknowledged) && Enabled(s, step)
    requires (step.Swap? || step.SwapUnacknowledged?) && !Quiet(s, step)
    ensures Accounted(Next(s, step), p, unacknowledged || step == SwapUnacknowledged(p))
  {
    SwapKeepsAccount(s, step.p, p);
  }

  lemma StepKeepsAccount(s: State, step: Step, p: ProcessId, unacknowledged: bool)
    requires Accounted(s, p, unacknowledged) && Enabled(s, step)
    ensures Accounted(Next(s, step), p, unacknowledged || step == SwapUnacknowledged(p))
  {
    if step.Deploy? {
      ByAfter(s.updates, Update(step.skill, s.heads[step.skill], step.version, None),
              s.log, Rollback(step.skill, None, 0, 0, p), p);
    } else if Quiet(s, step) {
      QuietStepKeepsAccount(s, step, p, unacknowledged);
    } else {
      SwapStepKeepsAccount(s, step, p, unacknowledged);
    }
  }

  lemma SwapKeepsAccount(s: State, q: ProcessId, p: ProcessId)
    requires q in s.phases && s.phases[q].Ready? && s.phases[q].skill in s.heads
    ensures UpdatesBy(Swapped(s, q).updates, p) == UpdatesBy(s.updates, p) + if q == p then 1 else 0
    ensures EntriesBy(Swapped(s, q).log, p) == EntriesBy(s.log, p) + if q == p then 1 else 0
  {
    var f := s.phases[q];
    ByAfter(s.updates, Update(f.skill, s.heads[f.skill], f.target, Some(q)),
            s.log, Rollback(f.skill, f.fromSeq, f.toSeq, |s.updates|, q), p);
  }

  /**
   Over every run, a revert moved the head and wrote an entry at most once, and always both.
   It did neither if it is still under way, found nothing to do, found the head moved, or was
   a dry run; it did both if it completed and was no dry run. Only exit code 2 leaves it open:
   then it did both exactly if its commit took effect without being acknowledged.
   */
  lemma {:induction false} ExitCodeTells(steps: seq<Step>, p: ProcessId)
    requires Feasible(steps)
    ensures Accounted(After(steps), p, SwapUnacknowledged(p) in steps)
    decreases |steps|
  {
    if steps != [] {
      var n := |steps| - 1;
      ExitCodeTells(steps[..n], p);
      StepKeepsAccount(After(steps[..n]), steps[n], p, SwapUnacknowledged(p) in steps[..n]);
      assert steps == steps[..n] + [steps[n]];
    }
  }

  ghost predicate Extends(s: State, s': State) {
    && (forall v | v in s.versions :: v in s'.versions && s'.versions[v] == s.versions[v])
    && s.updates <= s'.updates
  }

  lemma {:induction false} HeadAtIsVersion(s: State, skill: string, n: nat)
    requires n <= |s.updates| && forall u | u in s.updates :: u.after in s.versions
    ensures var h := HeadAt(s.updates, skill, n); h.Some? ==> h.value in s.versions
  {
    if n > 0 {
      assert s.updates[n - 1] in s.updates;
      HeadAtIsVersion(s, skill, n - 1);
    }
  }

  lemma TruthfulStays(s: State, s': State, e: Rollback)
    requires Sound(s) && Truthful(s, e) && Extends(s, s')
    ensures Truthful(s', e)
  {
    HeadAtPrefix(s.updates, s'.updates, e.skill, e.at);
    HeadAtPrefix(s.updates, s'.updates, e.skill, e.at + 1);
    HeadAtIsVersion(s, e.skill, e.at);
    HeadAtIsVersion(s, e.skill, e.at + 1);
  }

  lemma GroundedStays(s: State, s': State, f: Phase)
    requires Grounded(s, f) && Extends(s, s')
    ensures Grounded(s', f)
  {
  }

  lemma MovedHeads(s: State, skill: string, v: VersionId, writer: Option<ProcessId>)
    requires Sound(s) && skill in s.heads && IsVersion(s, skill, v)
    ensures var s' := MoveHead(s, skill, v, writer);
            && (forall k | k in s'.heads :: s'.heads[k].Some? ==> IsVersion(s', k, s'.heads[k].value))
            && (forall k | k in s'.heads :: s'.heads[k] == HeadAt(s'.updates, k, |s'.updates|))
            && (forall u | u in s'.updates :: u.skill in s'.heads && u.after in s'.versions)
  {
    var s' := MoveHead(s, skill, v, writer);
    forall k | k in s'.heads ensures s'.heads[k] == HeadAt(s'.updates, k, |s'.updates|) {
      HeadAtPrefix(s.updates, s'.updates, k, |s.updates|);
    }
  }

  lemma {:induction false} NoUpdatesNoHead(updates: seq<Update>, skill: string, n: nat)
    requires n <= |updates| && forall u | u in updates :: u.skill != skill
    ensures HeadAt(updates, skill, n) == None
  {
    if n > 0 {
      assert updates[n - 1] in updates;
      NoUpdatesNoHead(updates, skill, n - 1);
    }
  }

  lemma EntriesStayTruthful(s: State, s': State)
    requires Sound(s) && Extends(s, s')
    ensures forall i | 0 <= i < |s.log| :: Truthful(s', s.log[i])
  {
    forall i | 0 <= i < |s.log| ensures Truthful(s', s.log[i]) {
      TruthfulStays(s, s', s.log[i]);
    }
  }

  lemma SwappedIsSound(s: State, p: ProcessId, code: ExitCode)
    requires Sound(s) && p in s.phases && s.phases[p].Ready? && s.phases[p].skill in s.heads
    requires s.heads[s.phases[p].skill] == s.phases[p].prior
    ensures Sound(Exit(Swapped(s, p), p, code))
  {
    var f := s.phases[p];
    assert Grounded(s, f);
    var s' := Exit(Swapped(s, p), p, code);
    MovedHeads(s, f.skill, f.target, Some(p));
    EntriesStayTruthful(s, s');
    var n := |s.updates|;
    HeadAtPrefix(s.updates, s'.updates, f.skill, n);
    assert s'.updates[n] == Update(f.skill, f.prior, f.target, Some(p));
    assert HeadAt(s'.updates, f.skill, n + 1) == Some(f.target);
    assert Truthful(s', Rollback(f.skill, f.fromSeq, f.toSeq, n, p));
    forall q | q in s'.phases ensures Grounded(s', s'.phases[q]) {
      if q != p {
        GroundedStays(s, s', s.phases[q]);
      }
    }
    forall i | 0 <= i < |s.log| ensures s.log[i].at < n {
      assert Truthful(s, s.log[i]);
    }
  }

  /** Steps of a revert that read, or give up. */
  lemma ReadingKeepsSound(s: State, s': State)
    requires Sound(s) && s' == s.(phases := s'.phases)
    requires forall p | p in s'.phases :: Grounded(s, s'.phases[p])
    ensures Sound(s')
  {
    EntriesStayTruthful(s, s');
    forall p | p in s'.phases ensures Grounded(s', s'.phases[p]) {
      GroundedStays(s, s', s'.phases[p]);
    }
  }

  /** Steps of other writers. */
  lemma OthersKeepSound(s: State, step: Step)
    requires Sound(s) && Enabled(s, step)
    requires step.Deploy? || step.Register? || step.AddSkill?
    ensures Sound(Next(s, step))
  {
    var s' := Next(s, step);
    EntriesStayTruthful(s, s');
    forall p | p in s'.phases ensures Grounded(s', s'.phases[p]) {
      GroundedStays(s, s', s.phases[p]);
    }
    if step.Deploy? {
      MovedHeads(s, step.skill, step.version, None);
    } else if step.AddSkill? {
      NoUpdatesNoHead(s.updates, step.skill, |s.updates|);
    }
  }

  lemma StepKeepsSound(s: State, step: Step)
    requires Sound(s) && Enabled(s, step)
    ensures Sound(Next(s, step))
  {
    if step.Deploy? || step.Register? || step.AddSkill? {
      OthersKeepSound(s, step);
    } else if step.SwapUnacknowledged? {
      SwappedIsSound(s, step.p, Unknown);
    } else if step.Swap? && s.heads[s.phases[step.p].skill] == s.phases[step.p].prior {
      SwappedIsSound(s, step.p, Completed);
    } else {
      ReadingKeepsSound(s, Next(s, step));
    }
  }

  /**
   Under every interleaving of reverts, deployments and registrations: each rollback entry
   is truthful about the heads on both sides of its update, no two entries share an update,
   and no entry records a change to the version that was already head.
   */
  lemma {:induction false} LogIsTruthful(steps: seq<Step>)
    requires Feasible(steps)
    ensures Sound(After(steps))
    decreases |steps|
  {
    if steps != [] {
      var n := |steps| - 1;
      LogIsTruthful(steps[..n]);
      StepKeepsSound(After(steps[..n]), steps[n]);
    }
  }

  // ---------------------------------------------------------------------------
  // What the exit codes mean
  // ---------------------------------------------------------------------------

  /** The head of the skill when the process read it. */
  ghost function Seen(steps: seq<Step>, p: ProcessId, skill: string): Option<Option<VersionId>>
    requires Feasible(steps)
    decreases |steps|
  {
    if steps == [] then None
    else
      var n := |steps| - 1;
      var s := After(steps[..n]);
      if steps[n] == ReadSkill(p) && skill in s.heads then Some(s.heads[skill]) else Seen(steps[..n], p, skill)
  }

  /** The head of the skill when the process came to swap it. */
  ghost function Found(steps: seq<Step>, p: ProcessId, skill: string): Option<Option<VersionId>>
    requires Feasible(steps)
    decreases |steps|
  {
    if steps == [] then None
    else
      var n := |steps| - 1;
      var s := After(steps[..n]);
      if steps[n] == Swap(p) && skill in s.heads then Some(s.heads[skill]) else Found(steps[..n], p, skill)
  }

  /** What a process was asked for and what it has found so far. */
  datatype Findings = Findings(skill: string, toSeq: nat, dryRun: bool, compared: bool,
                               seen: Option<Option<VersionId>>, found: Option<Option<VersionId>>)

  ghost function FindingsOf(steps: seq<Step>, p: ProcessId, skill: string, toSeq: nat, dryRun: bool): Findings
    requires Feasible(steps)
  {
    Findings(skill, toSeq, dryRun, ReadCurrent(p) in steps, Seen(steps, p, skill), Found(steps, p, skill))
  }

  /** The head that was read is the target version already. */
  ghost predicate AlreadyThere(s: State, f: Findings) {
    f.compared && f.seen.Some? && SeqOf(s, f.seen.value) == Some(f.toSeq)
  }

  ghost predicate CodeFits(s: State, code: ExitCode, f: Findings) {
    && (code.NoOp? <==> AlreadyThere(s, f))
    && (code.HeadMoved? <==> f.seen.Some? && f.found.Some? && f.found != f.seen)
    && (code.Completed? <==>
          f.compared && f.seen.Some? && !AlreadyThere(s, f) && (f.dryRun || (f.found.Some? && f.found == f.seen)))
  }

  /** The process stands where its findings lead. */
  ghost predicate Fits(s: State, phase: Phase, f: Findings) {
    && (f.seen.Some? && f.seen.value.Some? ==> f.seen.value.value in s.versions)
    && match phase
       case Started(skill, toSeq, dryRun) =>
         skill == f.skill && toSeq == f.toSeq && dryRun == f.dryRun && !f.compared && f.seen.None? && f.found.None?
       case SawSkill(skill, toSeq, dryRun, prior) =>
         && skill == f.skill && toSeq == f.toSeq && dryRun == f.dryRun
         && !f.compared && f.seen == Some(prior) && f.found.None?
       case SawTarget(skill, toSeq, dryRun, prior, _) =>
         && skill == f.skill && toSeq == f.toSeq && dryRun == f.dryRun
         && !f.compared && f.seen == Some(prior) && f.found.None?
       case Ready(skill, toSeq, prior, _, _) =>
         && skill == f.skill && toSeq == f.toSeq && !f.dryRun
         && f.compared && f.seen == Some(prior) && f.found.None? && !AlreadyThere(s, f)
       case Exited(code, dryRun) => dryRun == f.dryRun && CodeFits(s, code, f)
  }

  lemma FitsStays(s: State, s': State, phase: Phase, f: Findings)
    requires Fits(s, phase, f) && Extends(s, s')
    ensures Fits(s', phase, f)
  {
  }

  /** What a step of the process adds to its findings. */
  ghost function FindingsAfter(s: State, step: Step, p: ProcessId, f: Findings): Findings {
    f.(compared := f.compared || step == ReadCurrent(p),
       seen := if step == ReadSkill(p) && f.skill in s.heads then Some(s.heads[f.skill]) else f.seen,
       found := if step == Swap(p) && f.skill in s.heads then Some(s.heads[f.skill]) else f.found)
  }

  ghost predicate IsOf(step: Step, p: ProcessId) {
    !step.Deploy? && !step.Register? && !step.AddSkill? && step.p == p
  }

  lemma OwnStepFits(s: State, step: Step, p: ProcessId, f: Findings)
    requires Sound(s) && Enabled(s, step) && IsOf(step, p) && p in s.phases && Fits(s, s.phases[p], f)
    ensures Fits(Next(s, step), Next(s, step).phases[p], FindingsAfter(s, step, p, f))
  {
    var t := Next(s, step);
    assert Extends(s, t);
    assert Grounded(s, s.phases[p]);
  }

  lemma StepFits(s: State, step: Step, p: ProcessId, f: Findings)
    requires Sound(s) && Enabled(s, step) && p in s.phases && Fits(s, s.phases[p], f)
    ensures p in Next(s, step).phases && Fits(Next(s, step), Next(s, step).phases[p], FindingsAfter(s, step, p, f))
  {
    if IsOf(step, p) {
      OwnStepFits(s, step, p, f);
    } else {
      NothingRewritten(s, step);
      FitsStays(s, Next(s, step), s.phases[p], f);
    }
  }

  lemma NoPhaseNoStep(s: State, step: Step, p: ProcessId)
    requires Enabled(s, step) && p !in Next(s, step).phases
    ensures p !in s.phases && step != ReadSkill(p) && step != Swap(p) && step != ReadCurrent(p)
  {
  }

  lemma {:induction false} NoStepsNoFindings(steps: seq<Step>, p: ProcessId, skill: string)
    requires Feasible(steps) && p !in After(steps).phases
    ensures Seen(steps, p, skill).None? && Found(steps, p, skill).None? && ReadCurrent(p) !in steps
    decreases |steps|
  {
    if steps != [] {
      var n := |steps| - 1;
      NoPhaseNoStep(After(steps[..n]), steps[n], p);
      NoStepsNoFindings(steps[..n], p, skill);
      assert steps == steps[..n] + [steps[n]];
    }
  }

  lemma {:induction false} AlwaysFits(steps: seq<Step>, p: ProcessId, skill: string, toSeq: nat, dryRun: bool)
    requires Feasible(steps) && Begin(p, skill, toSeq, dryRun) in steps
    ensures var s := After(steps);
            p in s.phases && Fits(s, s.phases[p], FindingsOf(steps, p, skill, toSeq, dryRun))
    decreases |steps|
  {
    var n := |steps| - 1;
    var s, step := After(steps[..n]), steps[n];
    assert steps == steps[..n] + [step];
    LogIsTruthful(steps[..n]);
    if Begin(p, skill, toSeq, dryRun) in steps[..n] {
      AlwaysFits(steps[..n], p, skill, toSeq, dryRun);
      var f := FindingsOf(steps[..n], p, skill, toSeq, dryRun);
      StepFits(s, step, p, f);
      assert FindingsAfter(s, step, p, f) == FindingsOf(steps, p, skill, toSeq, dryRun);
    } else {
      NoStepsNoFindings(steps[..n], p, skill);
    }
  }

  /**
   What the codes say, over every run. 3: the head that was read has the requested number
   already. 4: the head at the swap is not the one that was read. 0: the head was read, has
   another number, and either this was a dry run or the head was still the same at the swap.
   */
  lemma ExitCodesMean(steps: seq<Step>, p: ProcessId, skill: string, toSeq: nat, dryRun: bool)
    requires Feasible(steps) && Begin(p, skill, toSeq, dryRun) in steps
    requires p in After(steps).phases && After(steps).phases[p].Exited?
    ensures
      var s := After(steps);
      var code, seen, found := s.phases[p].code, Seen(steps, p, skill), Found(steps, p, skill);
      var compared := ReadCurrent(p) in steps;
      && s.phases[p].dryRun == dryRun
      && (code == NoOp <==> compared && seen.Some? && SeqOf(s, seen.value) == Some(toSeq))
      && (code == HeadMoved <==> seen.Some? && found.Some? && found != seen)
      && (code == Completed <==>
            && compared && seen.Some? && SeqOf(s, seen.value) != Some(toSeq)
            && (dryRun || (found.Some? && found == seen)))
  {
    AlwaysFits(steps, p, skill, toSeq, dryRun);
  }

  // ---------------------------------------------------------------------------
  // A revert that nobody disturbs
  // ---------------------------------------------------------------------------

  lemma Extend(steps: seq<Step>, step: Step)
    requires Feasible(steps) && Enabled(After(steps), step)
    ensures Feasible(steps + [step]) && After(steps + [step]) == Next(After(steps), step)
  {
    assert (steps + [step])[..|steps|] == steps;
  }

  /** The version is a row of this skill with this number. */
  ghost predicate Holds(s: State, v: VersionId, skill: string, toSeq: nat) {
    v in s.versions && s.versions[v].skill == skill && s.versions[v].versionSeq == toSeq
  }

  /** Whatever a process is about to do, its connection can be lost first; the other writers never wait for it. */
  lemma OthersCanMove(s: State, p: ProcessId, skill: string, v: VersionId, row: Version)
    ensures Enabled(s, Register(v, row)) ==> Next(s, Register(v, row)).versions == s.versions[v := row]
    ensures v !in s.versions && (forall u | u in s.versions :: s.versions[u].skill != row.skill) ==>
      Enabled(s, Register(v, row))
    ensures p in s.phases && !s.phases[p].Exited? ==>
      Enabled(s, ConnectionLost(p)) && Next(s, ConnectionLost(p)).phases[p].code == Unknown
    ensures skill in s.heads && v in s.versions && s.versions[v].skill == skill ==>
      Enabled(s, Deploy(skill, v)) && Next(s, Deploy(skill, v)).heads == s.heads[skill := Some(v)]
    ensures skill !in s.heads ==>
      Enabled(s, AddSkill(skill)) && Next(s, AddSkill(skill)).heads == s.heads[skill := None]
    ensures p in s.phases && s.phases[p].Ready? && s.phases[p].skill in s.heads
            && s.heads[s.phases[p].skill] == s.phases[p].prior ==>
      && Enabled(s, SwapUnacknowledged(p))
      && Next(s, SwapUnacknowledged(p)).heads[s.phases[p].skill] == Some(s.phases[p].target)
  {
  }

  /** The process reads the skill, the target and the current version, and is ready to swap. */
  lemma GetsReady(steps: seq<Step>, p: ProcessId, skill: string, toSeq: nat) returns (target: VersionId)
    requires Feasible(steps)
    requires var s := After(steps);
             && p !in s.phases && skill in s.heads && (exists v :: Holds(s, v, skill, toSeq))
             && SeqOf(s, s.heads[skill]) != Some(toSeq)
    ensures
      var s := After(steps);
      var more := steps + [Begin(p, skill, toSeq, false), ReadSkill(p), ReadTarget(p), ReadCurrent(p)];
      && Feasible(more) && IsTarget(s, skill, toSeq, target)
      && After(more)
         == s.(phases := s.phases[p := Ready(skill, toSeq, s.heads[skill], target, SeqOf(s, s.heads[skill]))])
  {
    var s := After(steps);
    var more := steps;
    Extend(more, Begin(p, skill, toSeq, false));
    more := more + [Begin(p, skill, toSeq, false)];
    Extend(more, ReadSkill(p));
    more := more + [ReadSkill(p)];
    assert After(more) == s.(phases := s.phases[p := SawSkill(skill, toSeq, false, s.heads[skill])]);
    var v :| Holds(s, v, skill, toSeq);
    assert IsTarget(After(more), skill, toSeq, v);
    Extend(more, ReadTarget(p));
    more := more + [ReadTarget(p)];
    target := After(more).phases[p].target;
    assert After(more) == s.(phases := s.phases[p := SawTarget(skill, toSeq, false, s.heads[skill], target)]);
    Extend(more, ReadCurrent(p));
    more := more + [ReadCurrent(p)];
    assert more == steps + [Begin(p, skill, toSeq, false), ReadSkill(p), ReadTarget(p), ReadCurrent(p)];
  }

  /** Undisturbed, a revert to another registered version moves the head there, with one update and one entry. */
  lemma RevertGoesThrough(steps: seq<Step>, p: ProcessId, skill: string, toSeq: nat)
    requires Feasible(steps)
    requires var s := After(steps);
             && p !in s.phases && skill in s.heads && (exists v :: Holds(s, v, skill, toSeq))
             && SeqOf(s, s.heads[skill]) != Some(toSeq)
    ensures
      var s := After(steps);
      var more := steps + [Begin(p, skill, toSeq, false), ReadSkill(p), ReadTarget(p), ReadCurrent(p), Swap(p)];
      && Feasible(more)
      && var t := After(more);
         && t.heads.Keys == s.heads.Keys && (forall k | k in s.heads && k != skill :: t.heads[k] == s.heads[k])
         && t.heads[skill].Some? && Holds(t, t.heads[skill].value, skill, toSeq)
         && t.updates == s.updates + [Update(skill, s.heads[skill], t.heads[skill].value, Some(p))]
         && t.log == s.log + [Rollback(skill, SeqOf(s, s.heads[skill]), toSeq, |s.updates|, p)]
         && t.phases[p] == Exited(Completed, false) && t.versions == s.versions
  {
    var s := After(steps);
    var target := GetsReady(steps, p, skill, toSeq);
    var more := steps + [Begin(p, skill, toSeq, false), ReadSkill(p), ReadTarget(p), ReadCurrent(p)];
    Extend(more, Swap(p));
    assert more + [Swap(p)]
        == steps + [Begin(p, skill, toSeq, false), ReadSkill(p), ReadTarget(p), ReadCurrent(p), Swap(p)];
  }
}
