/**
 The bootstrap variant of the migration runner: no record table, every file applied from
 scratch. Apart from the COMMIT it sends before a file run statement by statement, it sends
 to an empty database exactly the SQL that a complete first run of the recording runner
 sends, in the same order.
 */
module FreshMigrate {
  import opened Migrations
  import opened Text

  /** What is sent to the server: a whole file, one statement of a file, or a bare COMMIT. */
  datatype Sent = Commit | WholeFile(name: string, sql: string) | Statement(name: string, statement: string)

  class Connection {
    var sent: seq<Sent>

    constructor ()
      ensures sent == []
    {
      sent := [];
    }
  }

  /** The SQL among the effects of a run: the records left out. */
  function SqlOf(log: seq<Effect>): seq<Sent> {
    if log == [] then []
    else
      var before := SqlOf(log[..|log| - 1]);
      match log[|log| - 1]
      case Applied(name, sql) => before + [WholeFile(name, sql)]
      case Executed(name, statement) => before + [Statement(name, statement)]
      case Recorded(_) => before
  }

  function Statements(name: string, ss: seq<string>): (r: seq<Sent>)
    ensures |r| == |ss|
  {
    seq(|ss|, i requires 0 <= i < |ss| => Statement(name, ss[i]))
  }

  function FileSql(name: string, sql: string): seq<Sent> {
    if NeedsNoTxn(sql) then Statements(name, SqlSplitter.Split(sql)) else [WholeFile(name, sql)]
  }

  function AllSql(order: seq<string>, dir: map<string, string>): seq<Sent>
    requires forall n | n in order :: n in dir
  {
    if order == [] then [] else FileSql(order[0], dir[order[0]]) + AllSql(order[1..], dir)
  }

  /** What `migrate` sends for a file: an open transaction is closed before single statements. */
  function FileSent(name: string, sql: string): seq<Sent> {
    if NeedsNoTxn(sql) then [Commit] + Statements(name, SqlSplitter.Split(sql)) else [WholeFile(name, sql)]
  }

  function AllSent(order: seq<string>, dir: map<string, string>): seq<Sent>
    requires forall n | n in order :: n in dir
  {
    if order == [] then [] else FileSent(order[0], dir[order[0]]) + AllSent(order[1..], dir)
  }

  function WithoutCommits(sent: seq<Sent>): seq<Sent> {
    if sent == [] then []
    else if sent[0].Commit? then WithoutCommits(sent[1..])
    else [sent[0]] + WithoutCommits(sent[1..])
  }

  lemma {:induction false} WithoutCommitsConcat(s: seq<Sent>, t: seq<Sent>)
    ensures WithoutCommits(s + t) == WithoutCommits(s) + WithoutCommits(t)
  {
    if s == [] {
      assert s + t == t;
    } else {
      WithoutCommitsConcat(s[1..], t);
      assert (s + t)[0] == s[0] && (s + t)[1..] == s[1..] + t;
    }
  }

  lemma {:induction false} NothingToDrop(sent: seq<Sent>)
    requires forall x | x in sent :: !x.Commit?
    ensures WithoutCommits(sent) == sent
  {
    if sent != [] {
      NothingToDrop(sent[1..]);
    }
  }

  lemma {:induction false} SentIsSql(order: seq<string>, dir: map<string, string>)
    requires forall n | n in order :: n in dir
    ensures WithoutCommits(AllSent(order, dir)) == AllSql(order, dir)
  {
    if order != [] {
      var name, sql := order[0], dir[order[0]];
      SentIsSql(order[1..], dir);
      WithoutCommitsConcat(FileSent(name, sql), AllSent(order[1..], dir));
      NothingToDrop(FileSql(name, sql));
      assert NeedsNoTxn(sql) ==> FileSent(name, sql)[1..] == FileSql(name, sql);
    }
  }

  /** The loop body of `migrate`. */
  method SendFile(name: string, sql: string, conn: Connection)
    modifies conn
    ensures conn.sent == old(conn.sent) + FileSent(name, sql)
  {
    if NeedsNoTxn(sql) {
      conn.sent := conn.sent + [Commit];
      var statements := SqlSplitter.Split(sql);
      for i := 0 to |statements|
        invariant conn.sent == old(conn.sent) + [Commit] + Statements(name, statements)[..i]
      {
        conn.sent := conn.sent + [Statement(name, statements[i])];
      }
      assert Statements(name, statements)[..|statements|] == Statements(name, statements);
      Associate(old(conn.sent), [Commit], Statements(name, statements));
    } else {
      conn.sent := conn.sent + [WholeFile(name, sql)];
    }
  }

  ghost function RestOf(files: seq<string>, k: nat, dir: map<string, string>): seq<Sent>
    requires k <= |files| && forall n | n in files :: n in dir
  {
    AllSent(files[k..], dir)
  }

  lemma RestStep(sent: seq<Sent>, files: seq<string>, k: nat, dir: map<string, string>)
    requires k < |files| && forall n | n in files :: n in dir
    ensures sent + RestOf(files, k, dir) == sent + FileSent(files[k], dir[files[k]]) + RestOf(files, k + 1, dir)
  {
    assert files[k..][1..] == files[k + 1..];
    Associate(sent, FileSent(files[k], dir[files[k]]), RestOf(files, k + 1, dir));
  }

  method SendAll(files: seq<string>, dir: map<string, string>, conn: Connection) returns (applied: seq<string>)
    requires forall n | n in files :: n in dir
    modifies conn
    ensures applied == files && conn.sent == old(conn.sent) + AllSent(files, dir)
  {
    applied := [];
    ghost var goal := conn.sent + RestOf(files, 0, dir);
    assert files[0..] == files;
    for k := 0 to |files|
      invariant applied == files[..k]
      invariant conn.sent + RestOf(files, k, dir) == goal
    {
      RestStep(conn.sent, files, k, dir);
      SendFile(files[k], dir[files[k]], conn);
      applied := applied + [files[k]];
    }
    assert RestOf(files, |files|, dir) == [];
    assert conn.sent + [] == conn.sent;
  }

  /** `migrate`: the names it reports and what it sends. */
  method Migrate(dir: map<string, string>, listing: seq<string>, conn: Connection) returns (applied: seq<string>)
    requires Lists(listing, dir)
    modifies conn
    ensures applied == Sorted(listing)
    ensures conn.sent == old(conn.sent) + AllSent(Sorted(listing), dir)
  {
    var files := Sorted(listing);
    applied := SendAll(files, dir, conn);
  }

  // ---------------------------------------------------------------------------
  // Where the COMMITs go
  // ---------------------------------------------------------------------------

  /** No transaction is open when a file's first statement is sent: right before it comes a COMMIT. */
  ghost predicate CommitsFirst(sent: seq<Sent>) {
    forall i | 0 <= i < |sent| && sent[i].Statement? ::
      i > 0 && (sent[i - 1].Commit? || (sent[i - 1].Statement? && sent[i - 1].name == sent[i].name))
  }

  lemma CommitsFirstConcat(s: seq<Sent>, t: seq<Sent>)
    requires CommitsFirst(s) && CommitsFirst(t)
    ensures CommitsFirst(s + t)
  {
    forall i | 0 <= i < |s + t| && (s + t)[i].Statement?
      ensures i > 0 && ((s + t)[i - 1].Commit? || ((s + t)[i - 1].Statement? && (s + t)[i - 1].name == (s + t)[i].name))
    {
      if i >= |s| {
        assert t[i - |s|] == (s + t)[i];
        assert (s + t)[i - 1] == t[i - |s| - 1];
      }
    }
  }

  /** The file is one to be run statement by statement. */
  ghost predicate StatementWise(sql: string) {
    Contains(sql, "-- ownevo:no-txn") || AddsEnumValue(sql)
  }

  lemma NeedsNoTxnIff(sql: string)
    ensures NeedsNoTxn(sql) <==> StatementWise(sql)
  {
    AddValueIff(sql);
    HasIff(sql, "-- ownevo:no-txn");
  }

  lemma FileCommits(name: string, sql: string)
    ensures CommitsFirst(FileSent(name, sql))
    ensures multiset(FileSent(name, sql))[Commit] == if StatementWise(sql) then 1 else 0
  {
    NeedsNoTxnIff(sql);
    if NeedsNoTxn(sql) {
      NoCommits(Statements(name, SqlSplitter.Split(sql)));
    }
  }

  lemma NoCommits(sent: seq<Sent>)
    requires forall i | 0 <= i < |sent| :: !sent[i].Commit?
    ensures multiset(sent)[Commit] == 0
  {
    assert Commit !in sent;
  }

  ghost function StatementWiseFiles(order: seq<string>, dir: map<string, string>): nat
    requires forall n | n in order :: n in dir
  {
    if order == [] then 0
    else (if StatementWise(dir[order[0]]) then 1 else 0) + StatementWiseFiles(order[1..], dir)
  }

  /** One COMMIT per file run statement by statement, right before its statements. */
  lemma {:induction false} CommitBeforeStatements(order: seq<string>, dir: map<string, string>)
    requires forall n | n in order :: n in dir
    ensures CommitsFirst(AllSent(order, dir))
    ensures multiset(AllSent(order, dir))[Commit] == StatementWiseFiles(order, dir)
  {
    if order != [] {
      var first, rest := FileSent(order[0], dir[order[0]]), AllSent(order[1..], dir);
      CommitBeforeStatements(order[1..], dir);
      FileCommits(order[0], dir[order[0]]);
      CommitsFirstConcat(first, rest);
      assert multiset(first + rest) == multiset(first) + multiset(rest);
    }
  }

  lemma {:induction false} SqlOfConcat(s: seq<Effect>, t: seq<Effect>)
    ensures SqlOf(s + t) == SqlOf(s) + SqlOf(t)
  {
    if t == [] {
      assert s + t == s;
    } else {
      var rest, last := t[..|t| - 1], t[|t| - 1];
      SqlOfConcat(s, rest);
      assert (s + t)[..|s + t| - 1] == s + rest && (s + t)[|s + t| - 1] == last;
    }
  }

  lemma {:induction false} SqlOfPass(name: string, ss: seq<string>, n: nat)
    requires n <= |ss|
    ensures SqlOf(Pass(name, ss, n)) == Statements(name, ss)[..n]
  {
    if n > 0 {
      SqlOfPass(name, ss, n - 1);
      assert Pass(name, ss, n)[..n - 1] == Pass(name, ss, n - 1);
      assert Statements(name, ss)[..n] == Statements(name, ss)[..n - 1] + [Statement(name, ss[n - 1])];
    }
  }

  lemma SqlOfFile(name: string, sql: string)
    ensures SqlOf(FullEffects(name, sql)) == FileSql(name, sql)
  {
    if NeedsNoTxn(sql) {
      var ss := SqlSplitter.Split(sql);
      SqlOfPass(name, ss, |ss|);
      SqlOfConcat(Pass(name, ss, |ss|), [Recorded(name)]);
      assert SqlOf([Recorded(name)]) == [];
      assert Statements(name, ss)[..|ss|] == Statements(name, ss);
    } else {
      assert SqlOf([Applied(name, sql)]) == [WholeFile(name, sql)];
    }
  }

  lemma {:induction false} SqlOfApplyAll(pending: seq<string>, dir: map<string, string>, store: Store, budget: nat)
    requires forall n | n in pending :: n in dir
    requires ApplyAll(pending, dir, store, budget).allCommitted
    ensures SqlOf(ApplyAll(pending, dir, store, budget).store.log) == SqlOf(store.log) + AllSql(pending, dir)
  {
    if pending != [] {
      var name := pending[0];
      var first := ApplyFile(name, dir[name], store, budget);
      SqlAfterFile(name, dir[name], store, budget);
      SqlOfApplyAll(pending[1..], dir, first.store, first.left);
      Associate(SqlOf(store.log), FileSql(name, dir[name]), AllSql(pending[1..], dir));
    }
  }

  lemma SqlAfterFile(name: string, sql: string, store: Store, budget: nat)
    requires ApplyFile(name, sql, store, budget).allCommitted
    ensures SqlOf(ApplyFile(name, sql, store, budget).store.log) == SqlOf(store.log) + FileSql(name, sql)
  {
    SqlOfConcat(store.log, FullEffects(name, sql));
    SqlOfFile(name, sql);
  }

  /** A complete first run of the recording runner sends what the bootstrap variant sends. */
  lemma RunnersAgreeOnFreshDatabase(listing: seq<string>, dir: map<string, string>, budget: nat)
    requires Lists(listing, dir)
    requires AfterRun(Sorted(listing), dir, Store([], []), budget).allCommitted
    ensures SqlOf(AfterRun(Sorted(listing), dir, Store([], []), budget).store.log)
         == WithoutCommits(AllSent(Sorted(listing), dir))
  {
    var order := Sorted(listing);
    SortedIsAscending(listing);
    var none: seq<string> := [];
    PrefixPending(order, none);
    assert order[0..] == order;
    SqlOfApplyAll(order, dir, Store([], []), budget);
    SentIsSql(order, dir);
  }
}
