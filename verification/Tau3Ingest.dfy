/**
 Backfilling benchmark runs into the `iterations` table: one row per results file, passed
 or blocked against the best score the table holds so far.

 The comparison is strict (a docstring says "greater or equal") and it compares a fresh
 score with one that went through `numeric(10,6)`, so it finds the strict maxima of the
 ingested scores exactly when each earlier score is a whole number of millionths.
 */
module Tau3Ingest {
  import opened Text
  import opened Scores

  datatype GateState = GatePass | GateBlockedNoImprovement | Other

  /** The columns of one workflow's `iterations` row that ingest reads or writes. */
  datatype Row = Row(index: nat, state: GateState, valScore: Option<Stored>, bestAfter: Option<Stored>)

  /** The score beats every best-ever score in the table. */
  ghost predicate Improves(rows: seq<Row>, val: real) {
    forall r | r in rows && r.bestAfter.Some? :: val > Load(r.bestAfter.value)
  }

  /** `row` is what ingesting `val` appends to `rows`. */
  ghost predicate Appends(rows: seq<Row>, val: real, row: Row) {
    && (forall r | r in rows :: r.index < row.index)
    && (row.index == 0 || exists r :: r in rows && r.index == row.index - 1)
    && row.state == (if Improves(rows, val) then GatePass else GateBlockedNoImprovement)
    && row.valScore == Some(Round(val)) && row.bestAfter.Some?
    && row.bestAfter.value >= Round(val)
    && (forall r | r in rows && r.bestAfter.Some? :: r.bestAfter.value <= row.bestAfter.value)
    && (row.bestAfter.value == Round(val) || exists r :: r in rows && r.bestAfter == row.bestAfter)
  }

  /** `after` is `before` with one row appended per score, in order. */
  ghost predicate Ingested(before: seq<Row>, vals: seq<real>, after: seq<Row>) {
    && |after| == |before| + |vals| && before <= after
    && forall i | 0 <= i < |vals| :: Appends(after[..|before| + i], vals[i], after[|before| + i])
  }

  class Iterations {
    var rows: seq<Row>

    constructor (rows: seq<Row>)
      ensures this.rows == rows
    {
      this.rows := rows;
    }

    /** `SELECT COALESCE(MAX(iteration_index), -1) + 1`. */
    method NextIndex() returns (next: nat)
      ensures forall r | r in rows :: r.index < next
      ensures next == 0 || exists r :: r in rows && r.index == next - 1
    {
      next := 0;
      for k := 0 to |rows|
        invariant forall i | 0 <= i < k :: rows[i].index < next
        invariant next == 0 || exists i :: 0 <= i < k && rows[i].index == next - 1
      {
        if rows[k].index >= next {
          next := rows[k].index + 1;
        }
      }
    }

    /** `SELECT MAX(best_ever_score_after)`: nulls do not count. */
    method Best() returns (best: Option<Stored>)
      ensures best.None? <==> forall r | r in rows :: r.bestAfter.None?
      ensures best.Some? ==> exists r :: r in rows && r.bestAfter == best
      ensures best.Some? ==> forall r | r in rows && r.bestAfter.Some? :: r.bestAfter.value <= best.value
    {
      best := None;
      for k := 0 to |rows|
        invariant best.None? <==> forall i | 0 <= i < k :: rows[i].bestAfter.None?
        invariant best.Some? ==> exists i :: 0 <= i < k && rows[i].bestAfter == best
        invariant best.Some? ==> forall i | 0 <= i < k && rows[i].bestAfter.Some? ::
          rows[i].bestAfter.value <= best.value
      {
        if rows[k].bestAfter.Some? && (best.None? || rows[k].bestAfter.value > best.value) {
          best := rows[k].bestAfter;
        }
      }
    }

    /** `_insert_iteration`. */
    method InsertIteration(val: real) returns (index: nat)
      modifies this
      ensures |rows| == |old(rows)| + 1 && old(rows) <= rows
      ensures Appends(old(rows), val, rows[|old(rows)|])
      ensures index == rows[|old(rows)|].index
    {
      index := NextIndex();
      var best := Best();
      var better := best.None? || val > Load(best.value);
      var newBest := if better then val else Load(best.value);
      BestDecides(rows, best, val);
      rows := rows + [Row(index, if better then GatePass else GateBlockedNoImprovement,
                          Some(Round(val)), Some(Round(newBest)))];
    }

    /** The loop of `main_async` over the summarised files. */
    method Ingest(vals: seq<real>)
      modifies this
      ensures Ingested(old(rows), vals, rows)
    {
      ghost var before := rows;
      for k := 0 to |vals|
        invariant Ingested(before, vals[..k], rows)
      {
        ghost var soFar := rows;
        var _ := InsertIteration(vals[k]);
        forall i | 0 <= i < k + 1 ensures Appends(rows[..|before| + i], vals[i], rows[|before| + i]) {
          if i < k {
            assert rows[..|before| + i] == soFar[..|before| + i] && vals[..k][i] == vals[i];
            assert Appends(soFar[..|before| + i], vals[..k][i], soFar[|before| + i]);
          } else {
            assert rows[..|before| + k] == soFar;
          }
        }
      }
      assert vals[..|vals|] == vals;
    }
  }

  /** Comparing with the maximum is comparing with every row, and storing keeps the maximum. */
  lemma BestDecides(rows: seq<Row>, best: Option<Stored>, val: real)
    requires best.None? <==> forall r | r in rows :: r.bestAfter.None?
    requires best.Some? ==> exists r :: r in rows && r.bestAfter == best
    requires best.Some? ==> forall r | r in rows && r.bestAfter.Some? :: r.bestAfter.value <= best.value
    ensures Improves(rows, val) <==> best.None? || val > Load(best.value)
    ensures best.Some? ==>
              Round(if val > Load(best.value) then val else Load(best.value)) == MaxStored(best.value, Round(val))
  {
    if best.Some? {
      RoundOfMax(best.value, val);
      forall r | r in rows && r.bestAfter.Some? ensures Load(r.bestAfter.value) <= Load(best.value) {
      }
    }
  }

  // ---------------------------------------------------------------------------
  // Which rows pass
  // ---------------------------------------------------------------------------

  /** The score survives storage unchanged. */
  ghost predicate Representable(x: real) {
    Load(Round(x)) == x
  }

  /** Strictly above everything ingested before it. */
  ghost predicate StrictMaximum(vals: seq<real>, i: nat)
    requires i < |vals|
  {
    forall j | 0 <= j < i :: vals[i] > vals[j]
  }

  /** In a fresh workflow the table's best scores are the stored forms of the scores so far. */
  lemma {:induction false} BestsAreStoredScores(vals: seq<real>, after: seq<Row>, i: nat, b: Stored)
    requires Ingested([], vals, after) && i <= |vals|
    ensures (exists r :: r in after[..i] && r.bestAfter == Some(b)) ==> exists j :: 0 <= j < i && b == Round(vals[j])
    ensures forall j | 0 <= j < i ::
              exists r :: r in after[..i] && r.bestAfter.Some? && r.bestAfter.value >= Round(vals[j])
  {
    if i > 0 {
      BestsAreStoredScores(vals, after, i - 1, b);
      var row := after[i - 1];
      assert Appends(after[..0 + (i - 1)], vals[i - 1], row);
      assert after[..i] == after[..i - 1] + [row];
      assert row in after[..i];
      if row.bestAfter == Some(b) && b != Round(vals[i - 1]) {
        assert exists r :: r in after[..i - 1] && r.bestAfter == Some(b);
      }
    }
  }

  /** Exactly which ingested rows pass: those above the stored form of every earlier score. */
  lemma PassesWhen(vals: seq<real>, after: seq<Row>, i: nat)
    requires Ingested([], vals, after) && i < |vals|
    ensures after[i].state == GatePass <==> forall j | 0 <= j < i :: vals[i] > Load(Round(vals[j]))
  {
    assert Appends(after[..0 + i], vals[i], after[0 + i]);
    var rows := after[..i];
    if Improves(rows, vals[i]) {
      forall j | 0 <= j < i ensures vals[i] > Load(Round(vals[j])) {
        BestsAreStoredScores(vals, after, i, 0);
        var r :| r in rows && r.bestAfter.Some? && r.bestAfter.value >= Round(vals[j]);
        assert Load(r.bestAfter.value) >= Load(Round(vals[j]));
      }
    }
    if forall j | 0 <= j < i :: vals[i] > Load(Round(vals[j])) {
      forall r | r in rows && r.bestAfter.Some? ensures vals[i] > Load(r.bestAfter.value) {
        BestsAreStoredScores(vals, after, i, r.bestAfter.value);
      }
    }
  }

  /** With scores that storage keeps, the rows that pass are exactly the strict maxima. */
  lemma PassingRowsAreStrictMaxima(vals: seq<real>, after: seq<Row>)
    requires Ingested([], vals, after)
    requires forall j | 0 <= j < |vals| :: Representable(vals[j])
    ensures forall i | 0 <= i < |vals| :: after[i].state == GatePass <==> StrictMaximum(vals, i)
  {
    forall i | 0 <= i < |vals| ensures after[i].state == GatePass <==> StrictMaximum(vals, i) {
      PassesWhen(vals, after, i);
    }
  }

  /** The second of two ingested scores passes. */
  ghost predicate SecondPasses(first: real, second: real) {
    forall after: seq<Row> | Ingested([], [first, second], after) :: after[1].state == GatePass
  }

  lemma TwoScores(first: real, second: real)
    ensures SecondPasses(first, second) <==> second > Load(Round(first))
  {
    var vals := [first, second];
    var b := Round(first);
    var one := Row(0, GatePass, Some(b), Some(b));
    RoundOfMax(b, second);
    var two := Row(1, if second > Load(b) then GatePass else GateBlockedNoImprovement,
                   Some(Round(second)), Some(MaxStored(b, Round(second))));
    var after := [one, two];
    assert after[..0] == [] && after[..1] == [one];
    assert one in after[..1];
    assert Ingested([], vals, after) by {
      assert Appends(after[..0], vals[0], after[0]);
      assert Appends(after[..1], vals[1], after[1]);
    }
    forall t: seq<Row> | Ingested([], vals, t) ensures t[1].state == GatePass <==> second > Load(b) {
      PassesWhen(vals, t, 1);
      assert (forall j | 0 <= j < 1 :: vals[1] > Load(Round(vals[j]))) <==> vals[1] > Load(Round(vals[0]));
    }
  }

  /**
   The rounding is observable: every later score is judged correctly against `first` if
   and only if storage keeps `first` as it is.
   */
  lemma JudgedCorrectlyIffRepresentable(first: real)
    ensures Representable(first) <==> forall second: real :: SecondPasses(first, second) <==> second > first
  {
    var b := Load(Round(first));
    forall second: real ensures SecondPasses(first, second) <==> second > b {
      TwoScores(first, second);
    }
    if b != first {
      // rounded down: an equal score passes; rounded up: a higher one is blocked
      var probe := if b < first then first else b;
      assert SecondPasses(first, probe) <==> probe > b;
    }
  }
}
