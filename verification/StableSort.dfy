/**
 The stable sort that Python's `sorted` and JavaScript's `Array.prototype.sort` promise:
 which positions end up where, and that the promise leaves no choice.
 */
module StableSort {

  /** `leq(x, y)`: `y` may follow `x`. Ties in both directions keep their order. */
  ghost predicate TotalPreorder<T(!new)>(leq: (T, T) -> bool) {
    && (forall x, y :: leq(x, y) || leq(y, x))
    && (forall x, y, z :: leq(x, y) && leq(y, z) ==> leq(x, z))
  }

  /** Position `a` comes before position `b` in the sorted list. */
  predicate Before<T>(s: seq<T>, leq: (T, T) -> bool, a: nat, b: nat)
    requires a < |s| && b < |s|
  {
    leq(s[a], s[b]) && (leq(s[b], s[a]) ==> a < b)
  }

  predicate Distinct<T(==)>(s: seq<T>) {
    forall i, j | 0 <= i < j < |s| :: s[i] != s[j]
  }

  predicate Positions(p: seq<nat>, n: nat) {
    forall i | 0 <= i < |p| :: p[i] < n
  }

  ghost predicate Ranked<T>(p: seq<nat>, s: seq<T>, leq: (T, T) -> bool)
    requires Positions(p, |s|)
  {
    forall i, j | 0 <= i < j < |p| :: Before(s, leq, p[i], p[j])
  }

  /** `p` lists every position of `s` once, smaller elements first and ties in their old order. */
  ghost predicate StableOrder<T>(p: seq<nat>, s: seq<T>, leq: (T, T) -> bool) {
    && |p| == |s| && Positions(p, |s|)
    && (forall k: nat | k < |s| :: k in p)
    && Ranked(p, s, leq)
  }

  /** The elements at the given positions. */
  function Pick<T>(s: seq<T>, p: seq<nat>): (r: seq<T>)
    requires Positions(p, |s|)
    ensures |r| == |p| && forall i | 0 <= i < |p| :: r[i] == s[p[i]]
  {
    seq(|p|, i requires 0 <= i < |p| => s[p[i]])
  }

  /** The positions of the elements to keep, in order. */
  function Where<T>(s: seq<T>, keep: T -> bool): (p: seq<nat>)
    ensures Positions(p, |s|)
    ensures forall k: nat :: k in p <==> k < |s| && keep(s[k])
    ensures forall i, j | 0 <= i < j < |p| :: p[i] < p[j]
  {
    if s == [] then []
    else
      var before := Where(s[..|s| - 1], keep);
      if keep(s[|s| - 1]) then before + [|s| - 1] else before
  }

  /** One more element adds its position or nothing. */
  lemma WhereStep<T>(s: seq<T>, keep: T -> bool, i: nat)
    requires i < |s|
    ensures Where(s[..i + 1], keep) == if keep(s[i]) then Where(s[..i], keep) + [i] else Where(s[..i], keep)
  {
    assert s[..i + 1][..i] == s[..i];
  }

  // ---------------------------------------------------------------------------
  // Existence: insertion
  // ---------------------------------------------------------------------------

  /** Puts the last position of `s` behind everything that may precede it. */
  function Insert<T>(p: seq<nat>, s: seq<T>, leq: (T, T) -> bool, k: nat): (r: seq<nat>)
    requires Positions(p, |s|) && k < |s|
    ensures Positions(r, |s|) && |r| == |p| + 1
    ensures forall x: nat :: x in r <==> x in p || x == k
  {
    if p == [] then [k]
    else if leq(s[p[0]], s[k]) then [p[0]] + Insert(p[1..], s, leq, k)
    else [k] + p
  }

  function Order<T>(s: seq<T>, leq: (T, T) -> bool): (p: seq<nat>)
    ensures |p| == |s| && Positions(p, |s|)
    ensures forall k: nat :: k in p <==> k < |s|
  {
    OrderOf(s, leq, |s|)
  }

  function OrderOf<T>(s: seq<T>, leq: (T, T) -> bool, n: nat): (p: seq<nat>)
    requires n <= |s|
    ensures |p| == n && Positions(p, |s|)
    ensures forall k: nat :: k in p <==> k < n
  {
    if n == 0 then [] else Insert(OrderOf(s, leq, n - 1), s, leq, n - 1)
  }

  lemma {:induction false} InsertKeepsRank<T(!new)>(p: seq<nat>, s: seq<T>, leq: (T, T) -> bool, k: nat)
    requires TotalPreorder(leq) && Positions(p, |s|) && k < |s| && Ranked(p, s, leq)
    requires forall x | x in p :: x < k
    ensures Ranked(Insert(p, s, leq, k), s, leq)
  {
    if p != [] {
      if leq(s[p[0]], s[k]) {
        var rest := Insert(p[1..], s, leq, k);
        assert p[0] in p && forall x | x in p[1..] :: x in p;
        InsertKeepsRank(p[1..], s, leq, k);
        forall j | 0 <= j < |rest| ensures Before(s, leq, p[0], rest[j]) {
          assert rest[j] in rest;
          assert rest[j] in p[1..] || rest[j] == k;
        }
      } else {
        forall j | 0 <= j < |p| ensures Before(s, leq, k, p[j]) {
          if j > 0 {
            assert Before(s, leq, p[0], p[j]);
          }
        }
      }
    }
  }

  lemma {:induction false} OrderOfIsRanked<T(!new)>(s: seq<T>, leq: (T, T) -> bool, n: nat)
    requires TotalPreorder(leq) && n <= |s|
    ensures Ranked(OrderOf(s, leq, n), s, leq)
  {
    if n > 0 {
      OrderOfIsRanked(s, leq, n - 1);
      InsertKeepsRank(OrderOf(s, leq, n - 1), s, leq, n - 1);
    }
  }

  lemma OrderIsStable<T(!new)>(s: seq<T>, leq: (T, T) -> bool)
    requires TotalPreorder(leq)
    ensures StableOrder(Order(s, leq), s, leq)
  {
    OrderOfIsRanked(s, leq, |s|);
  }

  // ---------------------------------------------------------------------------
  // Uniqueness
  // ---------------------------------------------------------------------------

  lemma {:induction false} RankedIsUnique<T>(p: seq<nat>, q: seq<nat>, s: seq<T>, leq: (T, T) -> bool)
    requires Positions(p, |s|) && Positions(q, |s|) && Ranked(p, s, leq) && Ranked(q, s, leq)
    requires forall k: nat :: k in p <==> k in q
    requires |p| == |q|
    ensures p == q
  {
    if p != [] {
      assert p[0] in q && q[0] in p;
      var i :| 0 <= i < |p| && p[i] == q[0];
      var j :| 0 <= j < |q| && q[j] == p[0];
      assert p[0] == q[0];
      forall k: nat ensures k in p[1..] <==> k in q[1..] {
        TailMembers(p, s, leq, k);
        TailMembers(q, s, leq, k);
      }
      RankedIsUnique(p[1..], q[1..], s, leq);
    }
  }

  lemma TailMembers<T>(p: seq<nat>, s: seq<T>, leq: (T, T) -> bool, k: nat)
    requires p != [] && Positions(p, |s|) && Ranked(p, s, leq)
    ensures k in p[1..] <==> k in p && k != p[0]
  {
    forall j | 1 <= j < |p| ensures p[j] != p[0] {
      assert Before(s, leq, p[0], p[j]);
    }
  }

  /** Stability and order determine the result. */
  lemma StableOrderIsUnique<T>(p: seq<nat>, q: seq<nat>, s: seq<T>, leq: (T, T) -> bool)
    requires StableOrder(p, s, leq) && StableOrder(q, s, leq)
    ensures p == q
  {
    forall k: nat ensures k in p <==> k in q {
    }
    RankedIsUnique(p, q, s, leq);
  }
}
