/**
 Finding the skill an agent last wrote by pairing the start and result events of its
 `write_skill` calls. Two scripts carry their own copy of the reader; both are shown to
 meet the one declarative specification `Answers`, which has a single answer.
 */
module TracePairing {
  import opened Json
  import opened Text

  datatype Event =
    | Start(name: string, callId: string, args: Object)
    | Result(name: string, callId: string, ok: bool, output: Json)
    | Other

  datatype Proposal = Proposal(skillId: string, content: string, diffSummary: Option<string>,
                               versionId: nat, versionSeq: int)

  /** `UUID(text)`, with its `ValueError` as `None`. */
  type UuidParser = string -> Option<nat>

  const WRITE_SKILL := "write_skill"

  // ---------------------------------------------------------------------------
  // Which start and result are a pair
  // ---------------------------------------------------------------------------

  /** The event is the start or the result of the `write_skill` call `id`. */
  predicate Touches(e: Event, id: string) {
    !e.Other? && e.name == "write_skill" && e.callId == id
  }

  /** The result at `i` answers the start at `k`: nothing else touched that call in between. */
  ghost predicate Pair(events: seq<Event>, k: nat, i: nat) {
    && k < i < |events| && events[k].Start? && events[i].Result?
    && Touches(events[k], events[i].callId) && Touches(events[i], events[i].callId)
    && forall j | k < j < i :: !Touches(events[j], events[i].callId)
  }

  ghost predicate SuccessfulPair(events: seq<Event>, k: nat, i: nat) {
    Pair(events, k, i) && events[i].ok
  }

  ghost predicate LatestPair(events: seq<Event>, k: nat, i: nat) {
    SuccessfulPair(events, k, i) && forall m: nat, j: nat | SuccessfulPair(events, m, j) :: j <= i
  }

  /** Pairs are a matching: a start has at most one result and a result at most one start. */
  lemma PairsAreAMatching(events: seq<Event>, k: nat, i: nat, m: nat, j: nat)
    requires Pair(events, k, i) && Pair(events, m, j)
    ensures k == m <==> i == j
  {
  }

  // ---------------------------------------------------------------------------
  // What a pair says
  // ---------------------------------------------------------------------------

  /** `p` is what a call with these arguments and this output registered. */
  ghost predicate Registered(args: Object, output: Object, parse: UuidParser, p: Proposal) {
    && (|| (Get(output, "skill_id") == Str(p.skillId) && p.skillId != "")
        || (!Truthy(Get(output, "skill_id")) && Get(args, "skill_id") == Str(p.skillId)))
    && Get(output, "content") == Str(p.content)
    && Get(output, "version_id").Str? && parse(Get(output, "version_id").s) == Some(p.versionId)
    && AsInt(Get(output, "version_seq")) == Some(p.versionSeq)
    && (p.diffSummary.Some? ==> Get(args, "diff_summary") == Str(p.diffSummary.value))
    && (p.diffSummary.None? ==> !Get(args, "diff_summary").Str?)
  }

  ghost predicate RegisteredBy(events: seq<Event>, k: nat, i: nat, parse: UuidParser, p: Proposal)
    requires Pair(events, k, i)
  {
    Registered(events[k].args, Fields(events[i].output), parse, p)
  }

  /**
   The specification: the proposal of the latest successful pair; nothing when there is no
   such pair or when that pair is malformed, whatever earlier pairs say.
   */
  ghost predicate Answers(events: seq<Event>, parse: UuidParser, answer: Option<Proposal>) {
    match answer
    case Some(p) => exists k: nat, i: nat :: LatestPair(events, k, i) && RegisteredBy(events, k, i, parse, p)
    case None => forall k: nat, i: nat, p: Proposal | LatestPair(events, k, i) :: !RegisteredBy(events, k, i, parse, p)
  }

  lemma LatestPairIsUnique(events: seq<Event>, k: nat, i: nat, m: nat, j: nat)
    requires LatestPair(events, k, i) && LatestPair(events, m, j)
    ensures k == m && i == j
  {
    PairsAreAMatching(events, k, i, m, j);
  }

  lemma AnswerIsUnique(events: seq<Event>, parse: UuidParser, a: Option<Proposal>, b: Option<Proposal>)
    requires Answers(events, parse, a) && Answers(events, parse, b)
    ensures a == b
  {
    forall k: nat, i: nat, m: nat, j: nat | LatestPair(events, k, i) && LatestPair(events, m, j)
      ensures k == m && i == j
    {
      LatestPairIsUnique(events, k, i, m, j);
    }
  }

  // ---------------------------------------------------------------------------
  // The event loop
  // ---------------------------------------------------------------------------

  /** The last event before `n` that touched the call. */
  ghost function LastTouch(events: seq<Event>, n: nat, id: string): (k: Option<nat>)
    requires n <= |events|
    ensures k.Some? ==> k.value < n && Touches(events[k.value], id)
    ensures forall j | (if k.Some? then k.value + 1 else 0) <= j < n :: !Touches(events[j], id)
  {
    if n == 0 then None
    else if Touches(events[n - 1], id) then Some(n - 1)
    else LastTouch(events, n - 1, id)
  }

  /** `starts` holds the arguments of exactly the calls started and not yet answered. */
  ghost predicate HoldsOpenCalls(events: seq<Event>, n: nat, starts: map<string, Object>)
    requires n <= |events|
  {
    forall id ::
      var last := LastTouch(events, n, id);
      if last.Some? && events[last.value].Start? then id in starts && starts[id] == events[last.value].args
      else id !in starts
  }

  /** `pairs` ends with the latest successful pair among the first `n` events. */
  ghost predicate EndsWithLatest(events: seq<Event>, n: nat, pairs: seq<(Object, Object)>)
    requires n <= |events|
  {
    && (pairs == [] ==> forall k: nat, i: nat | i < n :: !SuccessfulPair(events, k, i))
    && (pairs != [] ==> exists k: nat, i: nat ::
          && i < n && SuccessfulPair(events, k, i)
          && pairs[|pairs| - 1] == (events[k].args, Fields(events[i].output))
          && forall m: nat, j: nat | j < n && SuccessfulPair(events, m, j) :: j <= i)
  }

  lemma OpenCallsStep(events: seq<Event>, n: nat, before: map<string, Object>, after: map<string, Object>)
    requires n < |events| && HoldsOpenCalls(events, n, before)
    requires
      var e := events[n];
      if e.Other? || e.name != WRITE_SKILL then after == before
      else if e.Start? then after == before[e.callId := e.args]
      else after == before - {e.callId}
    ensures HoldsOpenCalls(events, n + 1, after)
  {
    forall id
      ensures
        var last := LastTouch(events, n + 1, id);
        if last.Some? && events[last.value].Start? then id in after && after[id] == events[last.value].args
        else id !in after
    {
      assert LastTouch(events, n + 1, id)
          == if Touches(events[n], id) then Some(n) else LastTouch(events, n, id);
    }
  }

  /** A result pairs with a start iff its call is open, and then with the arguments held for it. */
  lemma OpenCallPairs(events: seq<Event>, n: nat, starts: map<string, Object>)
    requires n < |events| && HoldsOpenCalls(events, n, starts)
    requires events[n].Result? && events[n].name == WRITE_SKILL
    ensures events[n].callId in starts ==>
      exists k: nat :: Pair(events, k, n) && events[k].args == starts[events[n].callId]
    ensures events[n].callId !in starts ==> forall k: nat :: !Pair(events, k, n)
  {
    var last := LastTouch(events, n, events[n].callId);
    if events[n].callId in starts {
      assert Pair(events, last.value, n);
    }
  }

  /** What event `n` adds to the list of pairs. */
  lemma PairsStep(events: seq<Event>, n: nat, starts: map<string, Object>,
                  before: seq<(Object, Object)>, after: seq<(Object, Object)>)
    requires n < |events| && HoldsOpenCalls(events, n, starts) && EndsWithLatest(events, n, before)
    requires
      var e := events[n];
      if e.Result? && e.name == WRITE_SKILL && e.callId in starts && e.ok
      then after == before + [(starts[e.callId], Fields(e.output))]
      else after == before
    ensures EndsWithLatest(events, n + 1, after)
  {
    var e := events[n];
    if e.Result? && e.name == WRITE_SKILL {
      OpenCallPairs(events, n, starts);
      if e.callId in starts && e.ok {
        var k: nat :| Pair(events, k, n) && events[k].args == starts[e.callId];
        assert SuccessfulPair(events, k, n);
        return;
      }
    }
    assert forall k: nat :: !SuccessfulPair(events, k, n);
    if before != [] {
      var k: nat, i: nat :| && i < n && SuccessfulPair(events, k, i)
        && before[|before| - 1] == (events[k].args, Fields(events[i].output))
        && forall m: nat, j: nat | j < n && SuccessfulPair(events, m, j) :: j <= i;
      forall m: nat, j: nat | j < n + 1 && SuccessfulPair(events, m, j) ensures j <= i {
        assert j != n;
      }
    }
  }

  lemma EndsWithLatestOfAll(events: seq<Event>, pairs: seq<(Object, Object)>)
    requires EndsWithLatest(events, |events|, pairs)
    ensures pairs == [] ==> forall k: nat, i: nat :: !SuccessfulPair(events, k, i)
    ensures pairs != [] ==> exists k: nat, i: nat ::
      LatestPair(events, k, i) && pairs[|pairs| - 1] == (events[k].args, Fields(events[i].output))
  {
    if pairs != [] {
      var k: nat, i: nat :| && i < |events| && SuccessfulPair(events, k, i)
        && pairs[|pairs| - 1] == (events[k].args, Fields(events[i].output))
        && forall m: nat, j: nat | j < |events| && SuccessfulPair(events, m, j) :: j <= i;
      assert LatestPair(events, k, i);
    }
  }

  /** The loop both scripts run, and the last pair it collects. */
  method LastSuccessfulCall(events: seq<Event>) returns (found: Option<(Object, Object)>)
    ensures found.None? ==> forall k: nat, i: nat :: !SuccessfulPair(events, k, i)
    ensures found.Some? ==> exists k: nat, i: nat ::
      LatestPair(events, k, i) && found.value == (events[k].args, Fields(events[i].output))
  {
    var starts: map<string, Object> := map[];
    var pairs: seq<(Object, Object)> := [];
    for n := 0 to |events|
      invariant HoldsOpenCalls(events, n, starts)
      invariant EndsWithLatest(events, n, pairs)
    {
      var e := events[n];
      ghost var before, pairsBefore := starts, pairs;
      if e.Start? && e.name == WRITE_SKILL {
        starts := starts[e.callId := e.args];
      } else if e.Result? && e.name == WRITE_SKILL {
        if e.callId in starts {
          var args := starts[e.callId];
          starts := starts - {e.callId};
          if e.ok {
            var output := if e.output.Dict? then e.output.fields else map[];
            pairs := pairs + [(args, output)];
          }
        } else {
          assert before - {e.callId} == before;
        }
      }
      PairsStep(events, n, before, pairsBefore, pairs);
      OpenCallsStep(events, n, before, starts);
    }
    EndsWithLatestOfAll(events, pairs);
    found := if pairs == [] then None else Some(pairs[|pairs| - 1]);
  }

  lemma AnswerFromLatest(events: seq<Event>, parse: UuidParser, found: Option<(Object, Object)>,
            answer: Option<Proposal>)
    requires found.None? ==> forall k: nat, i: nat :: !SuccessfulPair(events, k, i)
    requires found.Some? ==> exists k: nat, i: nat ::
      LatestPair(events, k, i) && found.value == (events[k].args, Fields(events[i].output))
    requires found.None? ==> answer.None?
    requires found.Some? && answer.Some? ==> Registered(found.value.0, found.value.1, parse, answer.value)
    requires found.Some? && answer.None? ==> forall p :: !Registered(found.value.0, found.value.1, parse, p)
    ensures Answers(events, parse, answer)
  {
    if found.Some? {
      var k: nat, i: nat :| LatestPair(events, k, i) && found.value == (events[k].args, Fields(events[i].output));
      if answer.Some? {
        assert RegisteredBy(events, k, i, parse, answer.value);
      } else {
        forall m: nat, j: nat, p: Proposal | LatestPair(events, m, j)
          ensures !RegisteredBy(events, m, j, parse, p)
        {
          LatestPairIsUnique(events, k, i, m, j);
        }
      }
    }
  }

  // ---------------------------------------------------------------------------
  // The two readers
  // ---------------------------------------------------------------------------

  /** `_extract_latest_write_skill` of the improvement loop. */
  method ExtractInImprovementLoop(events: seq<Event>, parse: UuidParser) returns (answer: Option<Proposal>)
    ensures Answers(events, parse, answer)
  {
    var found := LastSuccessfulCall(events);
    answer := None;
    if found.Some? {
      answer := ReadInImprovementLoop(found.value.0, found.value.1, parse);
    }
    AnswerFromLatest(events, parse, found, answer);
  }

  method ReadInImprovementLoop(args: Object, output: Object, parse: UuidParser) returns (answer: Option<Proposal>)
    ensures answer.Some? ==> Registered(args, output, parse, answer.value)
    ensures answer.None? ==> forall p :: !Registered(args, output, parse, p)
  {
    var skillId := Get(output, "skill_id");
    if !Truthy(skillId) {
      skillId := Get(args, "skill_id");
    }
    var content := Get(output, "content");
    if !skillId.Str? || !content.Str? {
      return None;
    }
    var raw := Get(output, "version_id");
    var seqNo := AsInt(Get(output, "version_seq"));
    if !raw.Str? || seqNo.None? {
      return None;
    }
    var versionId := parse(raw.s);
    if versionId.None? {
      return None;
    }
    var summary := Get(args, "diff_summary");
    if summary != Null && !summary.Str? {
      summary := Null;
    }
    return Some(Proposal(skillId.s, content.s, if summary.Str? then Some(summary.s) else None,
                         versionId.value, seqNo.value));
  }

  /** `_extract_latest_write_skill` of the tau3 loop. */
  method ExtractInTau3Loop(events: seq<Event>, parse: UuidParser) returns (answer: Option<Proposal>)
    ensures Answers(events, parse, answer)
  {
    var found := LastSuccessfulCall(events);
    answer := None;
    if found.Some? {
      answer := ReadInTau3Loop(found.value.0, found.value.1, parse);
    }
    AnswerFromLatest(events, parse, found, answer);
  }

  method ReadInTau3Loop(args: Object, output: Object, parse: UuidParser) returns (answer: Option<Proposal>)
    ensures answer.Some? ==> Registered(args, output, parse, answer.value)
    ensures answer.None? ==> forall p :: !Registered(args, output, parse, p)
  {
    var skillId := if Truthy(Get(output, "skill_id")) then Get(output, "skill_id") else Get(args, "skill_id");
    var content := Get(output, "content");
    if !skillId.Str? || !content.Str? {
      return None;
    }
    var raw := Get(output, "version_id");
    var versionId := None;
    if raw.Str? {
      versionId := parse(raw.s);
    }
    var seqNo := AsInt(Get(output, "version_seq"));
    if versionId.None? || seqNo.None? {
      return None;
    }
    var summary := Get(args, "diff_summary");
    return Some(Proposal(skillId.s, content.s, if summary.Str? then Some(summary.s) else None,
                         versionId.value, seqNo.value));
  }

  // ---------------------------------------------------------------------------
  // What interleaving cannot change
  // ---------------------------------------------------------------------------

  /** Events of other tools, and all later traffic of calls that fail, leave the answer alone. */
  lemma IrrelevantTailKeepsAnswer(events: seq<Event>, tail: seq<Event>, parse: UuidParser, answer: Option<Proposal>)
    requires forall e | e in tail :: e.Result? && e.name == WRITE_SKILL ==> !e.ok
    requires Answers(events, parse, answer)
    ensures Answers(events + tail, parse, answer)
  {
    var all := events + tail;
    forall j | |events| <= j < |all|
      ensures all[j].Result? && all[j].name == WRITE_SKILL ==> !all[j].ok
    {
      assert all[j] in tail;
    }
    forall k: nat, i: nat
      ensures SuccessfulPair(all, k, i) <==> SuccessfulPair(events, k, i)
    {
      if i < |events| {
        assert forall j | 0 <= j <= i :: all[j] == events[j];
      }
    }
    forall k: nat, i: nat
      ensures LatestPair(all, k, i) <==> LatestPair(events, k, i)
    {
    }
    if answer.Some? {
      var k: nat, i: nat :| LatestPair(events, k, i) && RegisteredBy(events, k, i, parse, answer.value);
      assert LatestPair(all, k, i) && RegisteredBy(all, k, i, parse, answer.value);
    } else {
      forall k: nat, i: nat, p: Proposal | LatestPair(all, k, i) ensures !RegisteredBy(all, k, i, parse, p) {
        assert LatestPair(events, k, i) && !RegisteredBy(events, k, i, parse, p);
      }
    }
  }

  /** A successful call appended whole becomes the answer, or, if malformed, hides every earlier one. */
  lemma LastCallWins(events: seq<Event>, id: string, args: Object, output: Json, parse: UuidParser, p: Proposal)
    ensures
      var all := events + [Start(WRITE_SKILL, id, args), Result(WRITE_SKILL, id, true, output)];
      && (Answers(all, parse, Some(p)) <==> Registered(args, Fields(output), parse, p))
      && (Answers(all, parse, None) <==> forall q :: !Registered(args, Fields(output), parse, q))
  {
    var all := events + [Start(WRITE_SKILL, id, args), Result(WRITE_SKILL, id, true, output)];
    var k, i := |events|, |events| + 1;
    assert all[k] == Start(WRITE_SKILL, id, args) && all[i] == Result(WRITE_SKILL, id, true, output);
    assert LatestPair(all, k, i);
    forall m: nat, j: nat | LatestPair(all, m, j) ensures m == k && j == i {
      LatestPairIsUnique(all, k, i, m, j);
    }
    if Registered(args, Fields(output), parse, p) {
      assert RegisteredBy(all, k, i, parse, p);
    }
    forall q ensures Registered(args, Fields(output), parse, q) <==> RegisteredBy(all, k, i, parse, q) {
    }
  }
}
