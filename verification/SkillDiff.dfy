/**
 The side-by-side diff of two skill bodies: an edit script computed from a
 longest-common-subsequence table, then projected onto two columns.

 Scripts are specified without reference to the table: a script edits `a` into `b`
 when its two projections are `a` and `b`, and `LcsDiff` must return the one script
 that keeps most lines and, among those, comes first when a kept line ranks before
 a removed line and a removed line before an added one.
 */
module SkillDiff {
  import opened Text

  datatype Kind = Context | Remove | Add

  datatype Segment = Segment(kind: Kind, text: string)

  datatype SideKind = Shared | Diff

  datatype SidePart = SidePart(kind: SideKind, text: string)

  // ---------------------------------------------------------------------------
  // Edit scripts
  // ---------------------------------------------------------------------------

  /** The lines a script reads on the current side. */
  ghost function OldSide(script: seq<Segment>): seq<string> {
    if script == [] then []
    else if script[0].kind.Add? then OldSide(script[1..])
    else [script[0].text] + OldSide(script[1..])
  }

  /** The lines a script writes on the proposed side. */
  ghost function NewSide(script: seq<Segment>): seq<string> {
    if script == [] then []
    else if script[0].kind.Remove? then NewSide(script[1..])
    else [script[0].text] + NewSide(script[1..])
  }

  /** The lines a script leaves alone. */
  ghost function Kept(script: seq<Segment>): seq<string> {
    if script == [] then []
    else if script[0].kind.Context? then [script[0].text] + Kept(script[1..])
    else Kept(script[1..])
  }

  ghost predicate Edits(script: seq<Segment>, a: seq<string>, b: seq<string>) {
    OldSide(script) == a && NewSide(script) == b
  }

  function Rank(kind: Kind): nat {
    match kind
    case Context => 0
    case Remove => 1
    case Add => 2
  }

  /** Left-to-right comparison of two scripts by the rank of their kinds. */
  ghost predicate NotAfter(s: seq<Segment>, t: seq<Segment>) {
    s == [] ||
    (t != [] &&
     (Rank(s[0].kind) < Rank(t[0].kind) ||
      (s[0].kind == t[0].kind && NotAfter(s[1..], t[1..]))))
  }

  ghost predicate BestScript(script: seq<Segment>, a: seq<string>, b: seq<string>) {
    && Edits(script, a, b)
    && (forall t | Edits(t, a, b) :: |Kept(t)| <= |Kept(script)|)
    && (forall t | Edits(t, a, b) && |Kept(t)| == |Kept(script)| :: NotAfter(script, t))
  }

  /** At most one script is best, so `BestScript` pins the diff down completely. */
  lemma BestScriptIsUnique(s: seq<Segment>, t: seq<Segment>, a: seq<string>, b: seq<string>)
    requires BestScript(s, a, b) && BestScript(t, a, b)
    ensures s == t
  {
    assert |Kept(s)| == |Kept(t)|;
    SameRanksSameScript(s, t);
  }

  lemma SideTails(s: seq<Segment>)
    requires s != []
    ensures s[0].kind.Add? ==> OldSide(s) == OldSide(s[1..])
    ensures !s[0].kind.Add? ==> OldSide(s) != [] && OldSide(s)[0] == s[0].text && OldSide(s)[1..] == OldSide(s[1..])
    ensures s[0].kind.Remove? ==> NewSide(s) == NewSide(s[1..])
    ensures !s[0].kind.Remove? ==> NewSide(s) != [] && NewSide(s)[0] == s[0].text && NewSide(s)[1..] == NewSide(s[1..])
  {
  }

  lemma {:induction false} SameRanksSameScript(s: seq<Segment>, t: seq<Segment>)
    requires OldSide(s) == OldSide(t) && NewSide(s) == NewSide(t)
    requires NotAfter(s, t) && NotAfter(t, s)
    ensures s == t
  {
    if s != [] && t != [] {
      SideTails(s);
      SideTails(t);
      SameRanksSameScript(s[1..], t[1..]);
    }
  }

  // ---------------------------------------------------------------------------
  // The longest common subsequence, and why matching greedily is safe
  // ---------------------------------------------------------------------------

  ghost function Lcs(a: seq<string>, b: seq<string>): nat
    decreases |a| + |b|
  {
    if a == [] || b == [] then 0
    else if a[0] == b[0] then 1 + Lcs(a[1..], b[1..])
    else Max(Lcs(a[1..], b), Lcs(a, b[1..]))
  }

  function Max(x: nat, y: nat): nat {
    if x >= y then x else y
  }

  /** Exchange: giving up one line on either side costs at most one match. */
  lemma {:induction false} DroppingALineCostsAtMostOne(a: seq<string>, b: seq<string>)
    ensures a != [] ==> Lcs(a[1..], b) <= Lcs(a, b) <= 1 + Lcs(a[1..], b)
    ensures b != [] ==> Lcs(a, b[1..]) <= Lcs(a, b) <= 1 + Lcs(a, b[1..])
    decreases |a| + |b|
  {
    if a != [] && b != [] {
      DroppingALineCostsAtMostOne(a[1..], b);
      DroppingALineCostsAtMostOne(a, b[1..]);
      DroppingALineCostsAtMostOne(a[1..], b[1..]);
    }
  }

  /** No script keeps more lines than the table's corner says. */
  lemma {:induction false} NoScriptKeepsMore(script: seq<Segment>, a: seq<string>, b: seq<string>)
    requires Edits(script, a, b)
    ensures |Kept(script)| <= Lcs(a, b)
  {
    if script != [] {
      DroppingALineCostsAtMostOne(a, b);
      var rest := script[1..];
      match script[0].kind
      case Context =>
        assert OldSide(rest) == a[1..] && NewSide(rest) == b[1..];
        NoScriptKeepsMore(rest, a[1..], b[1..]);
      case Remove =>
        assert OldSide(rest) == a[1..];
        NoScriptKeepsMore(rest, a[1..], b);
      case Add =>
        assert NewSide(rest) == b[1..];
        NoScriptKeepsMore(rest, a, b[1..]);
    }
  }

  // ---------------------------------------------------------------------------
  // The forward walk
  // ---------------------------------------------------------------------------

  /** The script the walk still has to emit when `a` and `b` remain. */
  ghost function Walk(a: seq<string>, b: seq<string>): seq<Segment>
    decreases |a| + |b|
  {
    if a != [] && b != [] && a[0] == b[0] then
      [Segment(Context, a[0])] + Walk(a[1..], b[1..])
    else if a != [] && (b == [] || Lcs(a[1..], b) >= Lcs(a, b[1..])) then
      [Segment(Remove, a[0])] + Walk(a[1..], b)
    else if b != [] then
      [Segment(Add, b[0])] + Walk(a, b[1..])
    else []
  }

  lemma {:induction false} WalkEdits(a: seq<string>, b: seq<string>)
    ensures Edits(Walk(a, b), a, b)
    ensures |Kept(Walk(a, b))| == Lcs(a, b)
    decreases |a| + |b|
  {
    if a != [] && b != [] && a[0] == b[0] {
      WalkEdits(a[1..], b[1..]);
    } else if a != [] && (b == [] || Lcs(a[1..], b) >= Lcs(a, b[1..])) {
      WalkEdits(a[1..], b);
    } else if b != [] {
      WalkEdits(a, b[1..]);
    }
  }

  lemma {:induction false} WalkComesFirst(t: seq<Segment>, a: seq<string>, b: seq<string>)
    requires Edits(t, a, b) && |Kept(t)| == Lcs(a, b)
    ensures NotAfter(Walk(a, b), t)
    decreases |a| + |b|
  {
    if t != [] {
      DroppingALineCostsAtMostOne(a, b);
      var rest := t[1..];
      match t[0].kind
      case Context =>
        assert OldSide(rest) == a[1..] && NewSide(rest) == b[1..];
        WalkComesFirst(rest, a[1..], b[1..]);
      case Remove =>
        assert OldSide(rest) == a[1..];
        NoScriptKeepsMore(rest, a[1..], b);
        if b == [] || a[0] != b[0] {
          WalkComesFirst(rest, a[1..], b);
        }
      case Add =>
        assert NewSide(rest) == b[1..];
        if a == [] || (a[0] != b[0] && Lcs(a[1..], b) < Lcs(a, b[1..])) {
          WalkComesFirst(rest, a, b[1..]);
        }
    }
  }

  lemma WalkIsBest(a: seq<string>, b: seq<string>)
    ensures BestScript(Walk(a, b), a, b)
  {
    WalkEdits(a, b);
    forall t | Edits(t, a, b) ensures |Kept(t)| <= |Kept(Walk(a, b))| {
      NoScriptKeepsMore(t, a, b);
    }
    forall t | Edits(t, a, b) && |Kept(t)| == |Kept(Walk(a, b))| ensures NotAfter(Walk(a, b), t) {
      WalkComesFirst(t, a, b);
    }
  }

  ghost predicate TableFrom(dp: array2<nat>, a: seq<string>, b: seq<string>, i: nat)
    reads dp
    requires dp.Length0 == |a| + 1 && dp.Length1 == |b| + 1
  {
    forall p, q :: i <= p <= |a| && 0 <= q <= |b| ==> dp[p, q] == LcsAt(a, b, p, q)
  }

  /** The table's cell: the common subsequence of what follows positions `i` and `j`. */
  ghost function LcsAt(a: seq<string>, b: seq<string>, i: nat, j: nat): nat
    requires i <= |a| && j <= |b|
  {
    Lcs(a[i..], b[j..])
  }

  lemma CellRecurrence(a: seq<string>, b: seq<string>, i: nat, j: nat)
    requires i < |a| && j < |b|
    ensures LcsAt(a, b, i, j) ==
            if a[i] == b[j] then LcsAt(a, b, i + 1, j + 1) + 1
            else Max(LcsAt(a, b, i + 1, j), LcsAt(a, b, i, j + 1))
  {
    assert a[i..][1..] == a[i + 1..] && b[j..][1..] == b[j + 1..];
  }

  ghost function WalkAt(a: seq<string>, b: seq<string>, i: nat, j: nat): seq<Segment>
    requires i <= |a| && j <= |b|
  {
    Walk(a[i..], b[j..])
  }

  lemma WalkStep(a: seq<string>, b: seq<string>, i: nat, j: nat)
    requires i <= |a| && j <= |b|
    ensures i < |a| && j < |b| && a[i] == b[j] ==>
              WalkAt(a, b, i, j) == [Segment(Context, a[i])] + WalkAt(a, b, i + 1, j + 1)
    ensures i < |a| && j < |b| && a[i] != b[j] && LcsAt(a, b, i + 1, j) >= LcsAt(a, b, i, j + 1) ==>
              WalkAt(a, b, i, j) == [Segment(Remove, a[i])] + WalkAt(a, b, i + 1, j)
    ensures i < |a| && j < |b| && a[i] != b[j] && LcsAt(a, b, i + 1, j) < LcsAt(a, b, i, j + 1) ==>
              WalkAt(a, b, i, j) == [Segment(Add, b[j])] + WalkAt(a, b, i, j + 1)
    ensures i < |a| && j == |b| ==> WalkAt(a, b, i, j) == [Segment(Remove, a[i])] + WalkAt(a, b, i + 1, j)
    ensures i == |a| && j < |b| ==> WalkAt(a, b, i, j) == [Segment(Add, b[j])] + WalkAt(a, b, i, j + 1)
    ensures i == |a| && j == |b| ==> WalkAt(a, b, i, j) == []
  {
    assert i < |a| ==> a[i..][1..] == a[i + 1..];
    assert j < |b| ==> b[j..][1..] == b[j + 1..];
  }

  ghost predicate Emitted(out: seq<Segment>, goal: seq<Segment>, rest: seq<Segment>) {
    goal == out + rest
  }

  lemma EmitNext(out: seq<Segment>, goal: seq<Segment>, x: Segment, rest: seq<Segment>)
    requires Emitted(out, goal, [x] + rest)
    ensures Emitted(out + [x], goal, rest)
  {
    assert out + ([x] + rest) == out + [x] + rest;
  }

  /** The backward pass of `lcsDiff`. */
  method FillTable(a: seq<string>, b: seq<string>) returns (dp: array2<nat>)
    ensures fresh(dp) && dp.Length0 == |a| + 1 && dp.Length1 == |b| + 1
    ensures TableFrom(dp, a, b, 0)
  {
    var (n, m) := (|a|, |b|);
    dp := new nat[n + 1, m + 1]((_, _) => 0);
    var i := n;
    while i > 0
      invariant 0 <= i <= n
      invariant TableFrom(dp, a, b, i)
      invariant forall p :: 0 <= p <= n ==> dp[p, m] == 0
    {
      i := i - 1;
      var j := m;
      while j > 0
        invariant 0 <= j <= m
        invariant TableFrom(dp, a, b, i + 1)
        invariant forall q :: j <= q <= m ==> dp[i, q] == LcsAt(a, b, i, q)
        invariant forall p :: 0 <= p <= n ==> dp[p, m] == 0
      {
        j := j - 1;
        CellRecurrence(a, b, i, j);
        dp[i, j] := if a[i] == b[j] then dp[i + 1, j + 1] + 1 else Max(dp[i + 1, j], dp[i, j + 1]);
      }
    }
  }

  /** `lcsDiff`: fill the table backwards, then walk it forwards. */
  method LcsDiff(a: seq<string>, b: seq<string>) returns (out: seq<Segment>)
    ensures BestScript(out, a, b)
  {
    var dp := FillTable(a, b);
    var (n, m) := (|a|, |b|);
    out := [];
    var i, j := 0, 0;
    ghost var goal := WalkAt(a, b, 0, 0);
    while i < n && j < m
      invariant 0 <= i <= n && 0 <= j <= m
      invariant TableFrom(dp, a, b, 0)
      invariant Emitted(out, goal, WalkAt(a, b, i, j))
      decreases n - i + m - j
    {
      WalkStep(a, b, i, j);
      assert dp[i + 1, j] == LcsAt(a, b, i + 1, j) && dp[i, j + 1] == LcsAt(a, b, i, j + 1);
      if a[i] == b[j] {
        EmitNext(out, goal, Segment(Context, a[i]), WalkAt(a, b, i + 1, j + 1));
        out := out + [Segment(Context, a[i])];
        i, j := i + 1, j + 1;
      } else if dp[i + 1, j] >= dp[i, j + 1] {
        EmitNext(out, goal, Segment(Remove, a[i]), WalkAt(a, b, i + 1, j));
        out := out + [Segment(Remove, a[i])];
        i := i + 1;
      } else {
        EmitNext(out, goal, Segment(Add, b[j]), WalkAt(a, b, i, j + 1));
        out := out + [Segment(Add, b[j])];
        j := j + 1;
      }
    }
    while i < n
      invariant 0 <= i <= n && 0 <= j <= m && (i == n || j == m)
      invariant Emitted(out, goal, WalkAt(a, b, i, j))
    {
      WalkStep(a, b, i, j);
      EmitNext(out, goal, Segment(Remove, a[i]), WalkAt(a, b, i + 1, j));
      out := out + [Segment(Remove, a[i])];
      i := i + 1;
    }
    while j < m
      invariant 0 <= j <= m
      invariant Emitted(out, goal, WalkAt(a, b, n, j))
    {
      WalkStep(a, b, n, j);
      EmitNext(out, goal, Segment(Add, b[j]), WalkAt(a, b, n, j + 1));
      out := out + [Segment(Add, b[j])];
      j := j + 1;
    }
    WalkStep(a, b, n, m);
    assert out == goal;
    assert a[0..] == a && b[0..] == b;
    WalkIsBest(a, b);
  }

  // ---------------------------------------------------------------------------
  // Two columns
  // ---------------------------------------------------------------------------

  ghost function OldColumn(script: seq<Segment>): seq<SidePart> {
    if script == [] then []
    else
      match script[0].kind
      case Context => [SidePart(Shared, script[0].text)] + OldColumn(script[1..])
      case Remove => [SidePart(Diff, script[0].text)] + OldColumn(script[1..])
      case Add => OldColumn(script[1..])
  }

  ghost function NewColumn(script: seq<Segment>): seq<SidePart> {
    if script == [] then []
    else
      match script[0].kind
      case Context => [SidePart(Shared, script[0].text)] + NewColumn(script[1..])
      case Remove => NewColumn(script[1..])
      case Add => [SidePart(Diff, script[0].text)] + NewColumn(script[1..])
  }

  ghost function Texts(column: seq<SidePart>): seq<string> {
    if column == [] then [] else [column[0].text] + Texts(column[1..])
  }

  ghost function SharedLines(column: seq<SidePart>): seq<string> {
    if column == [] then []
    else if column[0].kind.Shared? then [column[0].text] + SharedLines(column[1..])
    else SharedLines(column[1..])
  }

  ghost function Count(script: seq<Segment>, kind: Kind): nat {
    if script == [] then 0
    else (if script[0].kind == kind then 1 else 0) + Count(script[1..], kind)
  }

  lemma {:induction false} AppendToOldColumn(script: seq<Segment>, s: Segment)
    ensures OldColumn(script + [s]) == OldColumn(script) + OldColumn([s])
  {
    if script == [] {
      assert script + [s] == [s];
    } else {
      AppendToOldColumn(script[1..], s);
      assert (script + [s])[0] == script[0] && (script + [s])[1..] == script[1..] + [s];
    }
  }

  lemma {:induction false} AppendToNewColumn(script: seq<Segment>, s: Segment)
    ensures NewColumn(script + [s]) == NewColumn(script) + NewColumn([s])
  {
    if script == [] {
      assert script + [s] == [s];
    } else {
      AppendToNewColumn(script[1..], s);
      assert (script + [s])[0] == script[0] && (script + [s])[1..] == script[1..] + [s];
    }
  }

  lemma {:induction false} AppendToCount(script: seq<Segment>, s: Segment, kind: Kind)
    ensures Count(script + [s], kind) == Count(script, kind) + (if s.kind == kind then 1 else 0)
  {
    if script == [] {
      assert script + [s] == [s];
    } else {
      AppendToCount(script[1..], s, kind);
      assert (script + [s])[0] == script[0] && (script + [s])[1..] == script[1..] + [s];
    }
  }

  /** `partition`: one pass that fills both columns and counts the changed lines. */
  method Partition(segments: seq<Segment>)
    returns (left: seq<SidePart>, right: seq<SidePart>, adds: nat, removes: nat)
    ensures left == OldColumn(segments) && right == NewColumn(segments)
    ensures adds == Count(segments, Add) && removes == Count(segments, Remove)
  {
    left, right, adds, removes := [], [], 0, 0;
    for k := 0 to |segments|
      invariant left == OldColumn(segments[..k]) && right == NewColumn(segments[..k])
      invariant adds == Count(segments[..k], Add) && removes == Count(segments[..k], Remove)
    {
      var s := segments[k];
      AppendToOldColumn(segments[..k], s);
      AppendToNewColumn(segments[..k], s);
      AppendToCount(segments[..k], s, Add);
      AppendToCount(segments[..k], s, Remove);
      assert segments[..k + 1] == segments[..k] + [s];
      match s.kind
      case Context =>
        left := left + [SidePart(Shared, s.text)];
        right := right + [SidePart(Shared, s.text)];
      case Remove =>
        left := left + [SidePart(Diff, s.text)];
        removes := removes + 1;
      case Add =>
        right := right + [SidePart(Diff, s.text)];
        adds := adds + 1;
    }
    assert segments[..|segments|] == segments;
  }

  /** What the columns of any script say: both sides in full, the kept lines on both. */
  lemma {:induction false} ColumnsOfScript(script: seq<Segment>)
    ensures Texts(OldColumn(script)) == OldSide(script)
    ensures Texts(NewColumn(script)) == NewSide(script)
    ensures SharedLines(OldColumn(script)) == Kept(script) == SharedLines(NewColumn(script))
  {
    if script != [] {
      var s, rest := script[0], script[1..];
      ColumnsOfScript(rest);
      if !s.kind.Add? {
        assert OldColumn(script)[1..] == OldColumn(rest);
      }
      if !s.kind.Remove? {
        assert NewColumn(script)[1..] == NewColumn(rest);
      }
    }
  }

  lemma {:induction false} SidesByCount(script: seq<Segment>)
    ensures |OldSide(script)| == |Kept(script)| + Count(script, Remove)
    ensures |NewSide(script)| == |Kept(script)| + Count(script, Add)
  {
    if script != [] {
      SidesByCount(script[1..]);
    }
  }

  /** The script that keeps everything edits `a` into itself. */
  lemma {:induction false} KeepAll(a: seq<string>) returns (script: seq<Segment>)
    ensures Edits(script, a, a) && |Kept(script)| == |a|
  {
    if a == [] {
      script := [];
    } else {
      var rest := KeepAll(a[1..]);
      script := [Segment(Context, a[0])] + rest;
    }
  }

  lemma {:induction false} AllKeptMeansUnchanged(script: seq<Segment>)
    requires Count(script, Add) == 0 && Count(script, Remove) == 0
    ensures OldSide(script) == NewSide(script)
  {
    if script != [] {
      AllKeptMeansUnchanged(script[1..]);
    }
  }

  /** A column marks as many lines as it does not share. */
  lemma {:induction false} TextsLength(column: seq<SidePart>)
    ensures |Texts(column)| == |column|
  {
    if column != [] {
      TextsLength(column[1..]);
    }
  }

  /** The two calls the component makes: diff the bodies, then lay the script out. */
  method SideBySide(a: seq<string>, b: seq<string>)
    returns (left: seq<SidePart>, right: seq<SidePart>, adds: nat, removes: nat)
    ensures Texts(left) == a && Texts(right) == b
    ensures SharedLines(left) == SharedLines(right)
    ensures |SharedLines(left)| + removes == |left| && |SharedLines(right)| + adds == |right|
    ensures adds as int - removes as int == |b| - |a|
    ensures forall t | Edits(t, a, b) :: adds + removes <= Count(t, Add) + Count(t, Remove)
    ensures adds == 0 && removes == 0 <==> a == b
  {
    var script := LcsDiff(a, b);
    left, right, adds, removes := Partition(script);
    ColumnsOfScript(script);
    SidesByCount(script);
    TextsLength(left);
    TextsLength(right);
    forall t | Edits(t, a, b) ensures adds + removes <= Count(t, Add) + Count(t, Remove) {
      SidesByCount(t);
    }
    if a == b {
      ghost var same := KeepAll(a);
    }
    if adds == 0 && removes == 0 {
      AllKeptMeansUnchanged(script);
    }
  }

  // ---------------------------------------------------------------------------
  // Whole bodies
  // ---------------------------------------------------------------------------

  const MAX_LCS_LINES := 500

  /** What is shown for two bodies; nothing when one of them has too many lines to diff. */
  datatype Shown = Shown(left: seq<SidePart>, right: seq<SidePart>, adds: nat, removes: nat)

  lemma {:induction false} JoinOfSplit(s: string, sep: char)
    ensures SplitOn(s, sep) != [] && Join(SplitOn(s, sep), [sep]) == s
    ensures forall p | p in SplitOn(s, sep) :: sep !in p
  {
    if s != "" {
      var rest := SplitOn(s[1..], sep);
      JoinOfSplit(s[1..], sep);
      if s[0] == sep {
        assert ([""] + rest)[1..] == rest;
        assert Join([""] + rest, [sep]) == "" + [sep] + Join(rest, [sep]);
      } else {
        JoinGlued([s[0]], rest, [sep]);
      }
    }
  }

  lemma JoinGlued(c: string, parts: seq<string>, sep: string)
    requires parts != []
    ensures Join([c + parts[0]] + parts[1..], sep) == c + Join(parts, sep)
  {
    var glued := [c + parts[0]] + parts[1..];
    assert glued[1..] == parts[1..];
    if |parts| > 1 {
      assert c + parts[0] + sep + Join(parts[1..], sep) == c + (parts[0] + sep + Join(parts[1..], sep));
    }
  }

  /** Splitting cuts at every separator. */
  lemma {:induction false} PartsBySeparators(s: string, sep: char)
    ensures |SplitOn(s, sep)| == 1 + multiset(s)[sep]
  {
    if s != "" {
      PartsBySeparators(s[1..], sep);
      assert s == [s[0]] + s[1..];
    }
  }

  /**
   The component on two bodies: both columns, joined, are the bodies; the counts are those of
   the marked lines, differ by as many line feeds as the bodies do, and together are the
   fewest changes that lead from one to the other; nothing is marked iff the bodies are equal.
   */
  method DiffBodies(current: string, proposed: string) returns (r: Option<Shown>)
    ensures r.None? <==> multiset(current)['\n'] >= 500 || multiset(proposed)['\n'] >= 500
    ensures r.Some? ==> Join(Texts(r.value.left), "\n") == current && Join(Texts(r.value.right), "\n") == proposed
    ensures r.Some? ==> SharedLines(r.value.left) == SharedLines(r.value.right)
    ensures r.Some? ==> |SharedLines(r.value.left)| + r.value.removes == |r.value.left|
    ensures r.Some? ==> |SharedLines(r.value.right)| + r.value.adds == |r.value.right|
    ensures r.Some? ==>
      r.value.adds as int - r.value.removes as int == multiset(proposed)['\n'] as int - multiset(current)['\n'] as int
    ensures r.Some? ==> forall t | Edits(t, SplitOn(current, '\n'), SplitOn(proposed, '\n')) ::
      r.value.adds + r.value.removes <= Count(t, Add) + Count(t, Remove)
    ensures r.Some? ==> (r.value.adds == 0 && r.value.removes == 0 <==> current == proposed)
  {
    var currentLines, proposedLines := SplitOn(current, '\n'), SplitOn(proposed, '\n');
    PartsBySeparators(current, '\n');
    PartsBySeparators(proposed, '\n');
    if |currentLines| > MAX_LCS_LINES || |proposedLines| > MAX_LCS_LINES {
      return None;
    }
    JoinOfSplit(current, '\n');
    JoinOfSplit(proposed, '\n');
    var left, right, adds, removes := SideBySide(currentLines, proposedLines);
    return Some(Shown(left, right, adds, removes));
  }
}
