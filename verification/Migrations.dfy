/**
 The migration runner: every `.sql` file not yet in `schema_migrations` is applied in
 name order, either in one transaction with its record or, when a statement of it cannot
 run inside a transaction, statement by statement with the record written afterwards.

 A run may be cut off before any database effect (a crash, or a statement that fails),
 and may be repeated any number of times. The theorems are about every such series of runs.
 */
module Migrations {
  import opened StableSort
  import opened Text
  import SqlSplitter

  // ---------------------------------------------------------------------------
  // File names in order
  // ---------------------------------------------------------------------------

  /** Python's `<` on strings. */
  predicate Less(a: string, b: string) {
    b != "" && (a == "" || a[0] < b[0] || (a[0] == b[0] && Less(a[1..], b[1..])))
  }

  lemma {:induction false} LessIsTransitive(a: string, b: string, c: string)
    requires Less(a, b) && Less(b, c)
    ensures Less(a, c)
  {
    if a != "" && a[0] == b[0] && b[0] == c[0] {
      LessIsTransitive(a[1..], b[1..], c[1..]);
    }
  }

  lemma {:induction false} LessIsTotal(a: string, b: string)
    ensures Less(a, b) || a == b || Less(b, a)
    ensures !(Less(a, b) && Less(b, a)) && !Less(a, a)
  {
    if a != "" && b != "" && a[0] == b[0] {
      LessIsTotal(a[1..], b[1..]);
    }
    if a != "" {
      LessIsTotal(a[1..], a[1..]);
    }
  }

  ghost predicate Ascending(names: seq<string>) {
    forall i, j | 0 <= i < j < |names| :: Less(names[i], names[j])
  }

  /** `name` may follow `other`. */
  predicate NotAfter(other: string, name: string) {
    !Less(name, other)
  }

  /** `sorted(names)`. */
  function Sorted(names: seq<string>): (r: seq<string>)
    ensures forall n :: n in r <==> n in names
  {
    var order := Order(names, NotAfter);
    var r := Pick(names, order);
    assert forall n | n in names :: n in r by {
      forall n | n in names ensures n in r {
        PickedBack(names, order, n);
      }
    }
    r
  }

  lemma PickedBack(names: seq<string>, order: seq<nat>, n: string)
    requires Positions(order, |names|) && (forall k: nat | k < |names| :: k in order) && n in names
    ensures n in Pick(names, order)
  {
    var k: nat :| k < |names| && names[k] == n;
    assert k in order;
    var i :| 0 <= i < |order| && order[i] == k;
    assert Pick(names, order)[i] == n;
  }

  lemma NotAfterIsAnOrder()
    ensures TotalPreorder(NotAfter)
  {
    forall a, b ensures NotAfter(a, b) || NotAfter(b, a) {
      LessIsTotal(a, b);
    }
    forall a, b, c | NotAfter(a, b) && NotAfter(b, c) ensures NotAfter(a, c) {
      LessIsTotal(a, b);
      LessIsTotal(b, c);
      LessIsTotal(a, c);
      if Less(a, b) && Less(b, c) {
        LessIsTransitive(a, b, c);
      }
    }
  }

  lemma AscendingCons(name: string, names: seq<string>)
    requires Ascending(names) && forall n | n in names :: Less(name, n)
    ensures Ascending([name] + names)
  {
  }

  lemma SortedIsAscending(names: seq<string>)
    requires Distinct(names)
    ensures Ascending(Sorted(names))
  {
    var order := Order(names, NotAfter);
    NotAfterIsAnOrder();
    OrderIsStable(names, NotAfter);
    forall i, j | 0 <= i < j < |order| ensures Less(names[order[i]], names[order[j]]) {
      assert Before(names, NotAfter, order[i], order[j]);
      LessIsTotal(names[order[i]], names[order[j]]);
      assert order[i] != order[j];
    }
  }

  /** The order of a set of names is unique. */
  lemma {:induction false} AscendingIsUnique(s: seq<string>, t: seq<string>)
    requires Ascending(s) && Ascending(t)
    requires forall n :: n in s <==> n in t
    ensures s == t
  {
    assert t == [] || t[0] in t;
    if s != [] {
      assert s[0] in t;
      assert s[0] in t && t[0] in s;
      LessIsTotal(s[0], t[0]);
      assert s[0] == t[0];
      LessIsTotal(s[0], s[0]);
      forall n ensures n in s[1..] <==> n in t[1..] {
        assert n in s <==> n == s[0] || n in s[1..];
        assert n in t <==> n == t[0] || n in t[1..];
        assert s[0] !in s[1..] && t[0] !in t[1..];
      }
      AscendingIsUnique(s[1..], t[1..]);
    }
  }

  // ---------------------------------------------------------------------------
  // The database and one file's effects
  // ---------------------------------------------------------------------------

  datatype Effect =
    | Applied(name: string, sql: string)         // the whole file and its record, one commit
    | Executed(name: string, statement: string)  // one autocommitted statement
    | Recorded(name: string)                     // the record of a file run statement by statement

  /** `recorded` is `schema_migrations` in insertion order, `log` what the server committed. */
  datatype Store = Store(recorded: seq<string>, log: seq<Effect>)

  function Upper(s: string): string {
    seq(|s|, i requires 0 <= i < |s| => if 'a' <= s[i] <= 'z' then s[i] - 'a' + 'A' else s[i])
  }

  predicate Has(s: string, pattern: string) {
    IndexFrom(s, pattern, 0).Some?
  }

  predicate NeedsNoTxn(sql: string) {
    Has(Upper(SqlSplitter.StripComments(sql)), "ADD VALUE") || Has(sql, "-- ownevo:no-txn")
  }

  /** `c` is that capital, or its small letter. */
  ghost predicate SameLetter(c: char, capital: char) {
    c == capital || ('a' <= c <= 'z' && c - 'a' + 'A' == capital)
  }

  /** The letters of `word`, capital or not, stand at `i`. */
  ghost predicate LettersAt(s: string, word: string, i: nat) {
    i + |word| <= |s| && forall k | 0 <= k < |word| :: SameLetter(s[i + k], word[k])
  }

  /** A line that is no comment has the words `ADD VALUE` in it. */
  ghost predicate AddsEnumValue(sql: string) {
    exists l: string, i: nat :: l in SplitLines(sql) && !SqlSplitter.Commented(l) && LettersAt(l, "ADD VALUE", i)
  }

  ghost predicate NoSmallLetters(word: string) {
    forall c | c in word :: !('a' <= c <= 'z') && c != '\n'
  }

  lemma UpperAt(s: string, word: string, i: nat)
    requires NoSmallLetters(word)
    ensures MatchesAt(Upper(s), word, i) <==> LettersAt(s, word, i)
  {
    if i + |word| <= |s| {
      var part := Upper(s)[i..i + |word|];
      assert forall k | 0 <= k < |word| :: part[k] == Upper(s)[i + k] && word[k] in word;
      assert part == word <==> forall k | 0 <= k < |word| :: part[k] == word[k];
    }
  }

  ghost predicate HasLetters(s: string, word: string) {
    exists i: nat :: LettersAt(s, word, i)
  }

  /** Words that have no line feed stand in a joined text exactly if they stand in one of its lines. */
  lemma {:induction false} LettersInJoin(lines: seq<string>, word: string)
    requires NoSmallLetters(word) && word != ""
    ensures HasLetters(Join(lines, "\n"), word) <==> exists l :: l in lines && HasLetters(l, word)
  {
    if |lines| == 1 {
      assert lines[0] in lines;
    } else if |lines| > 1 {
      LettersInJoin(lines[1..], word);
      LettersAroundBreak(lines[0], Join(lines[1..], "\n"), word);
      assert lines == [lines[0]] + lines[1..];
    }
  }

  lemma LettersAroundBreak(s: string, t: string, word: string)
    requires NoSmallLetters(word) && word != ""
    ensures HasLetters(s + "\n" + t, word) <==> HasLetters(s, word) || HasLetters(t, word)
  {
    var all := s + "\n" + t;
    forall k | 0 <= k < |word| ensures !SameLetter('\n', word[k]) {
      assert word[k] in word;
    }
    forall i: nat | i <= |s| < i + |word| ensures !LettersAt(all, word, i) {
      var k := |s| - i;
      assert i + |word| <= |all| ==> all[i + k] == '\n' && !SameLetter(all[i + k], word[k]);
    }
    if i: nat :| LettersAt(all, word, i) {
      if i + |word| <= |s| {
        assert LettersAt(s, word, i);
      } else {
        var j := i - |s| - 1;
        assert forall k | 0 <= k < |word| :: SameLetter(all[i + k], word[k]) && all[i + k] == t[j + k];
        assert LettersAt(t, word, j);
      }
    }
    if i: nat :| LettersAt(s, word, i) {
      assert LettersAt(all, word, i);
    }
    if i: nat :| LettersAt(t, word, i) {
      var j := |s| + 1 + i;
      assert forall k | 0 <= k < |word| :: SameLetter(t[i + k], word[k]) && all[j + k] == t[i + k];
      assert LettersAt(all, word, j);
    }
  }

  lemma HasIff(s: string, pattern: string)
    ensures Has(s, pattern) <==> Contains(s, pattern)
  {
  }

  lemma AddValueIff(sql: string)
    ensures Has(Upper(SqlSplitter.StripComments(sql)), "ADD VALUE") <==> AddsEnumValue(sql)
  {
    var text, kept := SqlSplitter.StripComments(sql), SqlSplitter.WithoutComments(SplitLines(sql));
    HasIff(Upper(text), "ADD VALUE");
    forall i: nat ensures MatchesAt(Upper(text), "ADD VALUE", i) <==> LettersAt(text, "ADD VALUE", i) {
      UpperAt(text, "ADD VALUE", i);
    }
    LettersInJoin(kept, "ADD VALUE");
    SqlSplitter.KeptLines(SplitLines(sql));
  }

  /** The first `n` statements of a file, as the server sees them. */
  function Pass(name: string, statements: seq<string>, n: nat): seq<Effect>
    requires n <= |statements|
  {
    seq(n, i requires 0 <= i < n => Executed(name, statements[i]))
  }

  /** Everything applying a file commits when nothing interrupts it. */
  function FullEffects(name: string, sql: string): seq<Effect> {
    if NeedsNoTxn(sql) then
      var ss := SqlSplitter.Split(sql);
      Pass(name, ss, |ss|) + [Recorded(name)]
    else [Applied(name, sql)]
  }

  /** When a file is applied as a whole, in one transaction with its record. */
  lemma WholeFileIff(name: string, sql: string)
    ensures FullEffects(name, sql) == [Applied(name, sql)] <==>
      !Contains(sql, "-- ownevo:no-txn") && !AddsEnumValue(sql)
    ensures FullEffects(name, sql) != [Applied(name, sql)] ==>
      var ss := SqlSplitter.Split(sql); FullEffects(name, sql) == Pass(name, ss, |ss|) + [Recorded(name)]
  {
    AddValueIff(sql);
    HasIff(sql, "-- ownevo:no-txn");
    var ss := SqlSplitter.Split(sql);
    assert (Pass(name, ss, |ss|) + [Recorded(name)])[|ss|] == Recorded(name);
  }

  /** `ADD VALUE` in any mixture of capitals and small letters, on a line that is no comment. */
  lemma AddValueRunsByStatement(name: string, head: string, word: string, tail: string, rest: string)
    requires |word| == 9 && LettersAt(word, "ADD VALUE", 0)
    requires OneLine(head + word + tail) && !SqlSplitter.Commented(head + word + tail)
    ensures FullEffects(name, head + word + tail + "\n" + rest) != [Applied(name, head + word + tail + "\n" + rest)]
  {
    var line := head + word + tail;
    SplitLinesCons(line, rest);
    assert forall k | 0 <= k < 9 :: line[|head| + k] == word[k];
    assert LettersAt(line, "ADD VALUE", |head|);
    assert line in SplitLines(line + "\n" + rest);
    WholeFileIff(name, line + "\n" + rest);
  }

  /** The words in a comment do not count. */
  lemma CommentedAddValueIsWhole(name: string, text: string, statement: string)
    requires OneLine("--" + text) && OneLine(statement) && statement != ""
    requires !HasLetters(statement, "ADD VALUE") && !Contains("--" + text + "\n" + statement, "-- ownevo:no-txn")
    ensures FullEffects(name, "--" + text + "\n" + statement) == [Applied(name, "--" + text + "\n" + statement)]
  {
    var line := "--" + text;
    SplitLinesCons(line, statement);
    SplitLinesLast(statement);
    assert line[..0] == "" && line[0] == '-' && line[1] == '-';
    assert SqlSplitter.Commented(line);
    WholeFileIff(name, line + "\n" + statement);
  }

  lemma CapitalsRunByStatement(name: string)
    ensures FullEffects(name, "ADD VALUE 'x';\n") != [Applied(name, "ADD VALUE 'x';\n")]
  {
    FirstLineIsNoComment("ADD VALUE 'x';");
    assert "" + "ADD VALUE" + " 'x';" == "ADD VALUE 'x';";
    AddValueRunsByStatement(name, "", "ADD VALUE", " 'x';", "");
    assert "ADD VALUE 'x';" + "\n" + "" == "ADD VALUE 'x';\n";
  }

  lemma SmallLettersRunByStatement(name: string)
    ensures FullEffects(name, "add value 'x';\n") != [Applied(name, "add value 'x';\n")]
  {
    FirstLineIsNoComment("add value 'x';");
    assert "" + "add value" + " 'x';" == "add value 'x';";
    AddValueRunsByStatement(name, "", "add value", " 'x';", "");
    assert "add value 'x';" + "\n" + "" == "add value 'x';\n";
  }

  lemma MarkerRunsByStatement(name: string, rest: string)
    ensures FullEffects(name, "-- ownevo:no-txn\n" + rest) != [Applied(name, "-- ownevo:no-txn\n" + rest)]
  {
    var marked := "-- ownevo:no-txn\n" + rest;
    assert marked[..16] == "-- ownevo:no-txn";
    assert MatchesAt(marked, "-- ownevo:no-txn", 0);
    WholeFileIff(name, marked);
  }

  lemma CommentIsWhole(name: string)
    ensures FullEffects(name, "-- no ADD VALUE\nSELECT 1") == [Applied(name, "-- no ADD VALUE\nSELECT 1")]
  {
    var commented := "-- no ADD VALUE\nSELECT 1";
    assert "--" + " no ADD VALUE" + "\n" + "SELECT 1" == commented;
    assert !HasLetters("SELECT 1", "ADD VALUE");
    forall i: nat ensures !MatchesAt(commented, "-- ownevo:no-txn", i) {
      if i + 16 <= |commented| {
        var part := commented[i..i + 16];
        assert part[3] == commented[i + 3] && part[4] == commented[i + 4];
        assert commented[i + 3] != 'o' || commented[i + 4] != 'w';
      }
    }
    CommentedAddValueIsWhole(name, " no ADD VALUE", "SELECT 1");
  }

  lemma FirstLineIsNoComment(line: string)
    requires line != "" && !IsSpace(line[0]) && line[0] != '-'
    ensures !SqlSplitter.Commented(line)
  {
    forall i: nat | 0 < i <= |line| ensures !Blank(line[..i]) {
      assert line[..i][0] == line[0];
    }
  }

  /** How a run ends; one cut off while its last COMMIT is acknowledged has committed all and still raises. */
  datatype Outcome = Outcome(store: Store, left: nat, allCommitted: bool)

  /** One file with at most `budget` effects before the cut. */
  function ApplyFile(name: string, sql: string, store: Store, budget: nat): Outcome {
    var effects := FullEffects(name, sql);
    if |effects| <= budget then
      Outcome(Store(store.recorded + [name], store.log + effects), budget - |effects|, true)
    else
      Outcome(store.(log := store.log + effects[..budget]), 0, false)
  }

  /** One run over the pending files, in order. */
  function ApplyAll(pending: seq<string>, dir: map<string, string>, store: Store, budget: nat): Outcome
    requires forall n | n in pending :: n in dir
  {
    if pending == [] then Outcome(store, budget, true)
    else
      var first := ApplyFile(pending[0], dir[pending[0]], store, budget);
      if first.allCommitted then ApplyAll(pending[1..], dir, first.store, first.left) else first
  }

  function Pending(listing: seq<string>, recorded: seq<string>): (r: seq<string>)
    ensures forall n :: n in r <==> n in listing && n !in recorded
  {
    if listing == [] then []
    else if listing[0] in recorded then Pending(listing[1..], recorded)
    else [listing[0]] + Pending(listing[1..], recorded)
  }

  lemma {:induction false} PendingNames(listing: seq<string>, recorded: seq<string>)
    requires Distinct(listing)
    ensures Distinct(Pending(listing, recorded))
  {
    if listing != [] {
      PendingNames(listing[1..], recorded);
      assert listing == [listing[0]] + listing[1..];
      assert listing[0] !in listing[1..];
    }
  }

  /** `listing` is one order in which the directory's names may be read. */
  ghost predicate Lists(listing: seq<string>, dir: map<string, string>) {
    Distinct(listing) && forall n :: n in listing <==> n in dir
  }

  /** What one run does to the store: the files in name order, those recorded left out. */
  ghost function AfterRun(order: seq<string>, dir: map<string, string>, store: Store, budget: nat): Outcome
    requires forall n | n in order :: n in dir
  {
    ApplyAll(Pending(order, store.recorded), dir, store, budget)
  }

  class Database {
    var recorded: seq<string>
    var log: seq<Effect>

    ghost function State(): Store
      reads this
    {
      Store(recorded, log)
    }

    constructor ()
      ensures State() == Store([], [])
    {
      recorded, log := [], [];
    }
  }

  /** The loop body of `run`: both ways of applying a file. */
  method ApplyOne(name: string, sql: string, db: Database, budget: nat) returns (left: nat, allCommitted: bool)
    modifies db
    ensures Outcome(db.State(), left, allCommitted) == ApplyFile(name, sql, old(db.State()), budget)
  {
    left := budget;
    ghost var effects := FullEffects(name, sql);
    if NeedsNoTxn(sql) {
      var statements := SqlSplitter.Split(sql);
      for i := 0 to |statements|
        invariant left == budget - i
        invariant db.recorded == old(db.recorded) && db.log == old(db.log) + effects[..i]
      {
        if left == 0 { return 0, false; }
        db.log := db.log + [Executed(name, statements[i])];
        left := left - 1;
      }
      if left == 0 { return 0, false; }
      db.recorded, db.log := db.recorded + [name], db.log + [Recorded(name)];
    } else {
      if left == 0 { return 0, false; }
      db.recorded, db.log := db.recorded + [name], db.log + [Applied(name, sql)];
    }
    left := left - 1;
    allCommitted := true;
  }

  /** `run`, cut off after `budget` database effects unless it ends sooner. */
  method Run(dir: map<string, string>, listing: seq<string>, db: Database, budget: nat)
    returns (allCommitted: bool)
    requires Lists(listing, dir)
    modifies db
    ensures db.State() == AfterRun(Sorted(listing), dir, old(db.State()), budget).store
    ensures allCommitted == AfterRun(Sorted(listing), dir, old(db.State()), budget).allCommitted
  {
    var pending := Sorted(Pending(listing, db.recorded));
    SortedPending(listing, db.recorded);
    ghost var goal := AfterRun(Sorted(listing), dir, db.State(), budget);
    var left := budget;
    for k := 0 to |pending|
      invariant forall n | n in pending :: n in dir
      invariant goal == ApplyAll(pending[k..], dir, db.State(), left)
    {
      assert pending[k..][1..] == pending[k + 1..];
      left, allCommitted := ApplyOne(pending[k], dir[pending[k]], db, left);
      if !allCommitted { return; }
    }
    allCommitted := true;
  }

  /** Filtering and sorting commute, so the order of the listing does not matter. */
  lemma SortedPending(listing: seq<string>, recorded: seq<string>)
    requires Distinct(listing)
    ensures Sorted(Pending(listing, recorded)) == Pending(Sorted(listing), recorded)
    ensures forall n | n in Pending(Sorted(listing), recorded) :: n in listing
  {
    PendingNames(listing, recorded);
    SortedIsAscending(Pending(listing, recorded));
    SortedIsAscending(listing);
    PendingAscends(Sorted(listing), recorded);
    AscendingIsUnique(Sorted(Pending(listing, recorded)), Pending(Sorted(listing), recorded));
  }

  lemma {:induction false} PendingAscends(order: seq<string>, recorded: seq<string>)
    requires Ascending(order)
    ensures Ascending(Pending(order, recorded))
  {
    if order != [] {
      PendingAscends(order[1..], recorded);
      if order[0] !in recorded {
        AscendingCons(order[0], Pending(order[1..], recorded));
      }
    }
  }

  // ---------------------------------------------------------------------------
  // What any series of cut-off runs leaves behind
  // ---------------------------------------------------------------------------

  /** The part of the log that one file left. */
  ghost function Project(log: seq<Effect>, name: string): seq<Effect> {
    if log == [] then []
    else if log[0].name == name then [log[0]] + Project(log[1..], name)
    else Project(log[1..], name)
  }

  ghost predicate Within(cuts: seq<nat>, n: nat) {
    forall i | 0 <= i < |cuts| :: cuts[i] <= n
  }

  /** Interrupted passes over a file, each one starting again at its first statement. */
  ghost function Passes(name: string, statements: seq<string>, cuts: seq<nat>): seq<Effect>
    requires Within(cuts, |statements|)
  {
    if cuts == [] then []
    else Pass(name, statements, cuts[0]) + Passes(name, statements, cuts[1..])
  }

  ghost predicate RestartedPasses(name: string, statements: seq<string>, log: seq<Effect>) {
    exists cuts: seq<nat> :: Within(cuts, |statements|) && log == Passes(name, statements, cuts)
  }

  /**
   A transactional file took effect once if it is recorded and never otherwise. A file run
   statement by statement left passes cut off anywhere and, once recorded, ended with one
   full pass in order and its record.
   */
  ghost predicate FileHistory(name: string, sql: string, log: seq<Effect>, recorded: bool) {
    if NeedsNoTxn(sql) then
      var ss := SqlSplitter.Split(sql);
      if recorded then
        exists earlier: seq<Effect> ::
          RestartedPasses(name, ss, earlier) && log == earlier + Pass(name, ss, |ss|) + [Recorded(name)]
      else RestartedPasses(name, ss, log)
    else log == if recorded then [Applied(name, sql)] else []
  }

  ghost predicate Histories(order: seq<string>, dir: map<string, string>, store: Store)
    requires forall n | n in order :: n in dir
  {
    forall n | n in order :: FileHistory(n, dir[n], Project(store.log, n), n in store.recorded)
  }

  /** The log holds recorded files and at most the one after them, in name order. */
  ghost predicate LogInOrder(order: seq<string>, store: Store) {
    && (forall e | e in store.log ::
          e.name in store.recorded || (|store.recorded| < |order| && e.name == order[|store.recorded|]))
    && (forall i, j | 0 <= i < j < |store.log| :: !Less(store.log[j].name, store.log[i].name))
  }

  ghost predicate CrashSafe(order: seq<string>, dir: map<string, string>, store: Store)
    requires forall n | n in order :: n in dir
  {
    store.recorded <= order && Histories(order, dir, store) && LogInOrder(order, store)
  }

  lemma {:induction false} ProjectConcat(s: seq<Effect>, t: seq<Effect>, name: string)
    ensures Project(s + t, name) == Project(s, name) + Project(t, name)
  {
    if s == [] {
      assert s + t == t;
    } else {
      ProjectConcat(s[1..], t, name);
      assert (s + t)[0] == s[0] && (s + t)[1..] == s[1..] + t;
    }
  }

  lemma {:induction false} ProjectOfOneFile(log: seq<Effect>, mine: string, name: string)
    requires forall e | e in log :: e.name == mine
    ensures Project(log, name) == if name == mine then log else []
  {
    if log != [] {
      ProjectOfOneFile(log[1..], mine, name);
      assert log == [log[0]] + log[1..];
    }
  }

  lemma {:induction false} PassesAppend(name: string, statements: seq<string>, cuts: seq<nat>, n: nat)
    requires n <= |statements| && Within(cuts, |statements|)
    ensures Within(cuts + [n], |statements|)
    ensures Passes(name, statements, cuts + [n]) == Passes(name, statements, cuts) + Pass(name, statements, n)
  {
    if cuts == [] {
      assert cuts + [n] == [n];
    } else {
      PassesAppend(name, statements, cuts[1..], n);
      assert (cuts + [n])[0] == cuts[0] && (cuts + [n])[1..] == cuts[1..] + [n];
    }
  }

  lemma OneMorePass(name: string, statements: seq<string>, log: seq<Effect>, n: nat)
    requires RestartedPasses(name, statements, log) && n <= |statements|
    ensures RestartedPasses(name, statements, log + Pass(name, statements, n))
  {
    var cuts: seq<nat> :| Within(cuts, |statements|) && log == Passes(name, statements, cuts);
    PassesAppend(name, statements, cuts, n);
    assert log + Pass(name, statements, n) == Passes(name, statements, cuts + [n]);
  }

  /** Applying a file, whole or cut off, extends that file's own history correctly. */
  lemma OwnHistory(name: string, sql: string, log: seq<Effect>, budget: nat)
    requires FileHistory(name, sql, log, false)
    ensures var effects := FullEffects(name, sql);
            if |effects| <= budget then FileHistory(name, sql, log + effects, true)
            else FileHistory(name, sql, log + effects[..budget], false)
  {
    var effects := FullEffects(name, sql);
    if |effects| <= budget {
      if NeedsNoTxn(sql) {
        var ss := SqlSplitter.Split(sql);
        assert log + effects == log + Pass(name, ss, |ss|) + [Recorded(name)];
      }
    } else {
      if NeedsNoTxn(sql) {
        var ss := SqlSplitter.Split(sql);
        OneMorePass(name, ss, log, budget);
        assert effects[..budget] == Pass(name, ss, budget);
      } else {
        assert log + effects[..budget] == log;
      }
    }
  }

  ghost predicate LogOf(log: seq<Effect>, name: string) {
    forall e | e in log :: e.name == name
  }

  lemma EffectsAreOfFile(name: string, sql: string)
    ensures LogOf(FullEffects(name, sql), name)
  {
  }

  lemma ApplyFileKeepsHistories(order: seq<string>, dir: map<string, string>, store: Store, name: string, budget: nat)
    requires forall n | n in order :: n in dir
    requires Histories(order, dir, store) && name in order && name !in store.recorded
    ensures Histories(order, dir, ApplyFile(name, dir[name], store, budget).store)
  {
    var after := ApplyFile(name, dir[name], store, budget).store;
    var effects := FullEffects(name, dir[name]);
    var done := effects[..if |effects| <= budget then |effects| else budget];
    assert effects[..|effects|] == effects;
    EffectsAreOfFile(name, dir[name]);
    forall n | n in order ensures FileHistory(n, dir[n], Project(after.log, n), n in after.recorded) {
      ProjectConcat(store.log, done, n);
      ProjectOfOneFile(done, name, n);
      assert FileHistory(n, dir[n], Project(store.log, n), n in store.recorded);
      if n == name {
        OwnHistory(name, dir[name], Project(store.log, name), budget);
      } else {
        assert Project(after.log, n) == Project(store.log, n);
      }
    }
  }

  lemma ExtendedLogInOrder(order: seq<string>, store: Store, done: seq<Effect>)
    requires Ascending(order) && store.recorded <= order && |store.recorded| < |order|
    requires LogInOrder(order, store) && LogOf(done, order[|store.recorded|])
    ensures LogInOrder(order, store.(log := store.log + done))
    ensures LogInOrder(order, Store(store.recorded + [order[|store.recorded|]], store.log + done))
  {
    var k, log := |store.recorded|, store.log + done;
    var name := order[k];
    assert forall i | 0 <= i < k :: store.recorded[i] == order[i];
    forall i, j | 0 <= i < j < |log| ensures !Less(log[j].name, log[i].name) {
      if j >= |store.log| {
        assert log[j] in done;
        assert log[i] in store.log || log[i] in done;
        LessIsTotal(name, log[i].name);
      }
    }
    assert forall e | e in log :: e in store.log || e in done;
  }

  lemma ApplyFileKeeps(order: seq<string>, dir: map<string, string>, store: Store, budget: nat)
    requires Ascending(order) && forall n | n in order :: n in dir
    requires CrashSafe(order, dir, store) && |store.recorded| < |order|
    ensures var name := order[|store.recorded|];
            CrashSafe(order, dir, ApplyFile(name, dir[name], store, budget).store)
  {
    var k := |store.recorded|;
    var name := order[k];
    var effects := FullEffects(name, dir[name]);
    forall i | 0 <= i < k ensures store.recorded[i] != name {
      assert store.recorded[i] == order[i];
      LessIsTotal(name, name);
    }
    ApplyFileKeepsHistories(order, dir, store, name, budget);
    EffectsAreOfFile(name, dir[name]);
    ExtendedLogInOrder(order, store, if |effects| <= budget then effects else effects[..budget]);
  }

  lemma PendingAfterPrefix(order: seq<string>, k: nat)
    requires Ascending(order) && k <= |order|
    ensures Pending(order, order[..k]) == order[k..]
  {
    PendingAscends(order, order[..k]);
    forall n ensures n in Pending(order, order[..k]) <==> n in order[k..] {
      if n in order[k..] && n in order[..k] {
        LessIsTotal(n, n);
        assert false;
      }
      assert order == order[..k] + order[k..];
    }
    AscendingIsUnique(Pending(order, order[..k]), order[k..]);
  }

  ghost function Cost(pending: seq<string>, dir: map<string, string>): nat
    requires forall n | n in pending :: n in dir
  {
    if pending == [] then 0
    else |FullEffects(pending[0], dir[pending[0]])| + Cost(pending[1..], dir)
  }

  lemma {:induction false} ApplyAllFinishes(pending: seq<string>, dir: map<string, string>, store: Store, budget: nat)
    requires forall n | n in pending :: n in dir
    ensures ApplyAll(pending, dir, store, budget).allCommitted <==> Cost(pending, dir) <= budget
  {
    if pending != [] {
      var first := ApplyFile(pending[0], dir[pending[0]], store, budget);
      if first.allCommitted {
        ApplyAllFinishes(pending[1..], dir, first.store, first.left);
      }
    }
  }

  lemma AppendRest(done: seq<string>, pending: seq<string>)
    requires pending != []
    ensures done + [pending[0]] + pending[1..] == done + pending
  {
  }

  lemma {:induction false} ApplyAllRecords(pending: seq<string>, dir: map<string, string>, store: Store, budget: nat)
    requires forall n | n in pending :: n in dir
    ensures var o := ApplyAll(pending, dir, store, budget);
            && store.recorded <= o.store.recorded
            && (o.allCommitted ==> o.store.recorded == store.recorded + pending)
  {
    if pending != [] {
      var first := ApplyFile(pending[0], dir[pending[0]], store, budget);
      if first.allCommitted {
        ApplyAllRecords(pending[1..], dir, first.store, first.left);
        assert first.store.recorded == store.recorded + [pending[0]];
        AppendRest(store.recorded, pending);
      }
    }
  }

  lemma {:induction false} ApplyAllKeeps(order: seq<string>, dir: map<string, string>, store: Store, budget: nat)
    requires Ascending(order) && forall n | n in order :: n in dir
    requires CrashSafe(order, dir, store)
    ensures CrashSafe(order, dir, ApplyAll(order[|store.recorded|..], dir, store, budget).store)
    decreases |order| - |store.recorded|
  {
    var k := |store.recorded|;
    if k < |order| {
      var pending, name := order[k..], order[k];
      assert pending[0] == name && pending[1..] == order[k + 1..];
      ApplyFileKeeps(order, dir, store, budget);
      var first := ApplyFile(name, dir[name], store, budget);
      if first.allCommitted {
        ApplyAllKeeps(order, dir, first.store, first.left);
      }
    }
  }

  lemma RunKeeps(order: seq<string>, dir: map<string, string>, store: Store, budget: nat)
    requires Ascending(order) && forall n | n in order :: n in dir
    requires CrashSafe(order, dir, store)
    ensures CrashSafe(order, dir, AfterRun(order, dir, store, budget).store)
  {
    PrefixPending(order, store.recorded);
    ApplyAllKeeps(order, dir, store, budget);
  }

  lemma PrefixPending(order: seq<string>, recorded: seq<string>)
    requires Ascending(order) && recorded <= order
    ensures Pending(order, recorded) == order[|recorded|..]
    ensures recorded + Pending(order, recorded) == order
  {
    assert recorded == order[..|recorded|];
    PendingAfterPrefix(order, |recorded|);
  }

  lemma RunFinishes(order: seq<string>, dir: map<string, string>, store: Store, budget: nat)
    requires Ascending(order) && forall n | n in order :: n in dir
    requires store.recorded <= order
    ensures var o := AfterRun(order, dir, store, budget);
            && store.recorded <= o.store.recorded
            && (o.allCommitted <==> Cost(Pending(order, store.recorded), dir) <= budget)
            && (o.allCommitted ==> o.store.recorded == order)
  {
    PrefixPending(order, store.recorded);
    ApplyAllFinishes(Pending(order, store.recorded), dir, store, budget);
    ApplyAllRecords(Pending(order, store.recorded), dir, store, budget);
  }

  lemma NothingPending(order: seq<string>, dir: map<string, string>, store: Store, budget: nat)
    requires forall n | n in order :: n in dir
    requires store.recorded == order
    ensures AfterRun(order, dir, store, budget) == Outcome(store, budget, true)
  {
    PendingNone(order, order);
  }

  lemma {:induction false} PendingNone(listing: seq<string>, recorded: seq<string>)
    requires forall n | n in listing :: n in recorded
    ensures Pending(listing, recorded) == []
  {
    if listing != [] {
      PendingNone(listing[1..], recorded);
    }
  }

  /** The store after a series of runs on a fixed directory, each cut off by its own budget. */
  ghost function AfterRuns(order: seq<string>, dir: map<string, string>, budgets: seq<nat>): Store
    requires forall n | n in order :: n in dir
    decreases |budgets|
  {
    if budgets == [] then Store([], [])
    else
      var n := |budgets| - 1;
      AfterRun(order, dir, AfterRuns(order, dir, budgets[..n]), budgets[n]).store
  }

  lemma {:induction false} ProjectOfEmpty(order: seq<string>, dir: map<string, string>)
    requires forall n | n in order :: n in dir
    ensures CrashSafe(order, dir, Store([], []))
  {
    forall n | n in order ensures FileHistory(n, dir[n], [], false) {
      var none: seq<nat> := [];
      assert Passes(n, SqlSplitter.Split(dir[n]), none) == [];
    }
  }

  /** Over any number of runs cut off anywhere, the store stays crash-safe. */
  lemma {:induction false} CrashSafety(order: seq<string>, dir: map<string, string>, budgets: seq<nat>)
    requires Ascending(order) && forall n | n in order :: n in dir
    ensures CrashSafe(order, dir, AfterRuns(order, dir, budgets))
    decreases |budgets|
  {
    if budgets == [] {
      ProjectOfEmpty(order, dir);
    } else {
      var n := |budgets| - 1;
      var before := AfterRuns(order, dir, budgets[..n]);
      CrashSafety(order, dir, budgets[..n]);
      RunKeeps(order, dir, before, budgets[n]);
    }
  }

  /**
   From whatever a series of runs left: the next run commits all that is pending exactly when
   it gets far enough for that, and then every file is recorded; a run after that changes nothing.
   */
  lemma Completion(order: seq<string>, dir: map<string, string>, budgets: seq<nat>, budget: nat)
    requires Ascending(order) && forall n | n in order :: n in dir
    ensures var before := AfterRuns(order, dir, budgets);
            var o := AfterRun(order, dir, before, budget);
            && before.recorded <= o.store.recorded
            && (o.allCommitted <==> Cost(Pending(order, before.recorded), dir) <= budget)
            && (o.allCommitted ==> o.store.recorded == order
                                   && forall b: nat :: AfterRun(order, dir, o.store, b) == Outcome(o.store, b, true))
  {
    var before := AfterRuns(order, dir, budgets);
    CrashSafety(order, dir, budgets);
    RunFinishes(order, dir, before, budget);
    var o := AfterRun(order, dir, before, budget);
    if o.allCommitted {
      forall b: nat ensures AfterRun(order, dir, o.store, b) == Outcome(o.store, b, true) {
        NothingPending(order, dir, o.store, b);
      }
    }
  }
}
