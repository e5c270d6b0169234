/**
 Scores as the database keeps them: `numeric(10,6)` holds a whole number of millionths,
 and Postgres rounds a value halfway between two of them away from zero.
 */
module Scores {
  import opened Sets
  import opened Text

  /** A stored score, in millionths. */
  type Stored = int

  const SCALE := 1000000.0

  function Round(x: real): Stored {
    if x >= 0.0 then (x * SCALE + 0.5).Floor else -((-x * SCALE + 0.5).Floor)
  }

  /** `float(numeric)`. */
  function Load(k: Stored): real {
    k as real / SCALE
  }

  function MaxReal(x: real, y: real): real {
    if x >= y then x else y
  }

  function MaxStored(x: Stored, y: Stored): Stored {
    if x >= y then x else y
  }

  /** The stored score is the nearest one; halfway between two it is the one further from zero. */
  lemma RoundIsNearest(x: real)
    ensures
      var kept := Load(Round(x));
      && kept * 1000000.0 == Round(x) as real && -0.0000005 <= kept - x <= 0.0000005
      && (kept - x == 0.0000005 ==> x > 0.0) && (kept - x == -0.0000005 ==> x < 0.0)
  {
    var k := Round(x);
    assert Load(k) * SCALE == k as real;
    assert Load(k) - x == (k as real - x * SCALE) / SCALE;
  }

  lemma RoundMonotone(x: real, y: real)
    requires x <= y
    ensures Round(x) <= Round(y)
  {
    assert x * SCALE <= y * SCALE;
  }

  lemma RoundLoad(k: Stored)
    ensures Round(Load(k)) == k
  {
    assert Load(k) * SCALE == k as real;
    assert -Load(k) * SCALE == (-k) as real;
  }

  /** Storing the larger of a stored and a fresh score. */
  lemma RoundOfMax(k: Stored, x: real)
    ensures Round(MaxReal(Load(k), x)) == MaxStored(k, Round(x))
  {
    RoundLoad(k);
    if Load(k) >= x {
      RoundMonotone(x, Load(k));
    } else {
      RoundMonotone(Load(k), x);
    }
  }

  ghost predicate IsMax(s: set<int>, m: int) {
    m in s && forall x | x in s :: x <= m
  }

  lemma {:induction false} MaxExists(s: set<int>) returns (m: int)
    requires s != {}
    ensures IsMax(s, m)
  {
    var x := Member(s);
    if s == {x} {
      m := x;
    } else {
      var n := MaxExists(s - {x});
      m := if x > n then x else n;
      assert s == (s - {x}) + {x};
    }
  }

  /** `MAX(...)` over a query's rows: null when there are none. */
  ghost function MaxOf(s: set<int>): (m: Option<int>)
    ensures m.None? <==> s == {}
    ensures m.Some? ==> IsMax(s, m.value)
  {
    if s == {} then None
    else
      assert exists m :: IsMax(s, m) by { var m := MaxExists(s); }
      var m :| IsMax(s, m);
      Some(m)
  }
}
