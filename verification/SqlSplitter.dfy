/**
 `split_sql_statements`: drop `--` lines, cut at `;`, keep the non-blank pieces.

 The splitter has an exact inverse: joining statements with `";\n"` and splitting again
 returns them if and only if each one is `Clean`. On arbitrary text it loses nothing but
 comment lines, semicolons and white space.
 */
module SqlSplitter {
  import opened Text

  const COMMENT := "--"
  const TERMINATOR := ";\n"

  predicate IsCommentLine(line: string) {
    COMMENT <= TrimLeft(line)
  }

  /** The line has `--` after nothing but white space. */
  ghost predicate Commented(line: string) {
    exists i: nat :: i + 2 <= |line| && Blank(line[..i]) && line[i] == '-' && line[i + 1] == '-'
  }

  lemma CommentedIff(line: string)
    ensures IsCommentLine(line) <==> Commented(line)
  {
    var cut := TrimLeftCuts(line);
    var i := |cut|;
    assert line[..i] == cut;
    if IsCommentLine(line) {
      assert TrimLeft(line)[0] == line[i] && TrimLeft(line)[1] == line[i + 1];
      assert Commented(line);
    }
    if k: nat :| k + 2 <= |line| && Blank(line[..k]) && line[k] == '-' && line[k + 1] == '-' {
      TrimLeftOfBlankHead(line[..k], line[k..]);
      assert line == line[..k] + line[k..];
      assert TrimLeft(line[k..]) == line[k..] && line[k..][..2] == COMMENT;
    }
  }

  lemma {:induction false} KeptLines(lines: seq<string>)
    ensures forall l :: l in WithoutComments(lines) <==> l in lines && !Commented(l)
  {
    if lines != [] {
      KeptLines(lines[1..]);
      CommentedIff(lines[0]);
      assert lines == [lines[0]] + lines[1..];
    }
  }

  function WithoutComments(lines: seq<string>): (kept: seq<string>)
    ensures forall l | l in kept :: l in lines && !IsCommentLine(l)
  {
    if lines == [] then []
    else if IsCommentLine(lines[0]) then WithoutComments(lines[1..])
    else [lines[0]] + WithoutComments(lines[1..])
  }

  function StripComments(sql: string): string {
    Join(WithoutComments(SplitLines(sql)), "\n")
  }

  function Statements(parts: seq<string>): seq<string> {
    if parts == [] then []
    else if Trim(parts[0]) != "" then [Trim(parts[0])] + Statements(parts[1..])
    else Statements(parts[1..])
  }

  /** `split_sql_statements`. */
  function Split(sql: string): seq<string> {
    Statements(SplitOn(StripComments(sql), ';'))
  }

  // ---------------------------------------------------------------------------
  // Which statements survive
  // ---------------------------------------------------------------------------

  /** The only line break in `s` is the line feed. */
  ghost predicate OnlyNewlines(s: string) {
    forall c | c in s && IsLineBreak(c) :: c == '\n'
  }

  ghost predicate NoComments(s: string) {
    forall l | l in SplitLines(s) :: !IsCommentLine(l)
  }

  /** A statement the splitter returns as it was written. */
  ghost predicate Clean(s: string) {
    s != "" && Trimmed(s) && ';' !in s && OnlyNewlines(s) && NoComments(s)
  }

  /** Every statement the splitter returns, whatever it was given. */
  lemma OutputShape(sql: string)
    ensures forall s | s in Split(sql) :: s != "" && Trimmed(s) && ';' !in s && OnlyNewlines(s)
  {
    var text := StripComments(sql);
    JoinedLinesOnlyNewlines(WithoutComments(SplitLines(sql)));
    PartsOfText(text, ';');
    StatementsShape(SplitOn(text, ';'));
  }

  lemma {:induction false} JoinedLinesOnlyNewlines(lines: seq<string>)
    requires forall l | l in lines :: OneLine(l)
    ensures OnlyNewlines(Join(lines, "\n"))
  {
    if |lines| > 0 {
      assert lines[0] in lines;
    }
    if |lines| > 1 {
      JoinedLinesOnlyNewlines(lines[1..]);
    }
  }

  lemma {:induction false} PartsOfText(s: string, sep: char)
    ensures forall p, c | p in SplitOn(s, sep) && c in p :: c in s
  {
    if s != "" {
      PartsOfText(s[1..], sep);
      var rest := SplitOn(s[1..], sep);
      assert rest[0] in rest;
      forall p, c | p in SplitOn(s, sep) && c in p ensures c in s {
        assert p == "" || p in rest || p == [s[0]] + rest[0];
      }
    }
  }

  lemma {:induction false} StatementsShape(parts: seq<string>)
    requires forall p | p in parts :: ';' !in p && OnlyNewlines(p)
    ensures forall s | s in Statements(parts) :: s != "" && Trimmed(s) && ';' !in s && OnlyNewlines(s)
  {
    if parts != [] {
      StatementsShape(parts[1..]);
      var left, right := TrimCuts(parts[0]);
      var t := Trim(parts[0]);
      assert forall c | c in t :: c in parts[0];
      assert parts[0] in parts;
    }
  }

  // ---------------------------------------------------------------------------
  // What is lost
  // ---------------------------------------------------------------------------

  /** The characters of `s` that are neither white space nor `;`, in order. */
  ghost function Ink(s: string): string {
    if s == "" then ""
    else if IsSpace(s[0]) || s[0] == ';' then Ink(s[1..])
    else [s[0]] + Ink(s[1..])
  }

  lemma {:induction false} InkConcat(s: string, t: string)
    ensures Ink(s + t) == Ink(s) + Ink(t)
  {
    if s == "" {
      assert s + t == t;
    } else {
      InkConcat(s[1..], t);
      assert (s + t)[0] == s[0] && (s + t)[1..] == s[1..] + t;
      assert [s[0]] + (Ink(s[1..]) + Ink(t)) == [s[0]] + Ink(s[1..]) + Ink(t);
    }
  }

  lemma {:induction false} InkOfBlank(s: string)
    requires Blank(s)
    ensures Ink(s) == ""
  {
    if s != "" {
      InkOfBlank(s[1..]);
    }
  }

  lemma InkOfTrim(s: string)
    ensures Ink(Trim(s)) == Ink(s)
  {
    var left, right := TrimCuts(s);
    InkConcat(left + Trim(s), right);
    InkConcat(left, Trim(s));
    InkOfBlank(left);
    InkOfBlank(right);
  }

  lemma {:induction false} InkOfParts(s: string)
    ensures Ink(Concat(SplitOn(s, ';'))) == Ink(s)
  {
    if s != "" {
      InkOfParts(s[1..]);
      var rest := SplitOn(s[1..], ';');
      if s[0] == ';' {
        InkOfCons("", rest);
      } else {
        InkOfGluedParts([s[0]], rest);
        InkConcat([s[0]], s[1..]);
        assert s == [s[0]] + s[1..];
      }
    }
  }

  lemma InkOfGluedParts(c: string, parts: seq<string>)
    requires parts != []
    ensures Ink(Concat([c + parts[0]] + parts[1..])) == Ink(c) + Ink(Concat(parts))
  {
    InkOfCons(c + parts[0], parts[1..]);
    InkOfCons(parts[0], parts[1..]);
    InkConcat(c, parts[0]);
    assert parts == [parts[0]] + parts[1..];
    Associate(Ink(c), Ink(parts[0]), Ink(Concat(parts[1..])));
  }

  lemma {:induction false} InkOfStatements(parts: seq<string>)
    ensures Ink(Concat(Statements(parts))) == Ink(Concat(parts))
  {
    if parts != [] {
      InkOfStatements(parts[1..]);
      InkOfTrim(parts[0]);
      InkConcat(parts[0], Concat(parts[1..]));
      if Trim(parts[0]) != "" {
        var rest := Statements(parts[1..]);
        assert ([Trim(parts[0])] + rest)[1..] == rest;
        InkConcat(Trim(parts[0]), Concat(rest));
      }
    }
  }

  lemma {:induction false} InkOfJoin(parts: seq<string>, sep: string)
    requires Ink(sep) == ""
    ensures Ink(Join(parts, sep)) == Ink(Concat(parts))
  {
    if |parts| == 1 {
      assert Concat(parts) == parts[0] + "";
      InkConcat(parts[0], "");
    } else if |parts| > 1 {
      InkOfJoin(parts[1..], sep);
      InkConcat(parts[0] + sep, Join(parts[1..], sep));
      InkConcat(parts[0], sep);
      InkConcat(parts[0], Concat(parts[1..]));
    }
  }

  lemma {:induction false} InkOfLines(s: string)
    ensures Ink(Concat(SplitLines(s))) == Ink(s)
    decreases |s|
  {
    if s != "" {
      if LineLength(s) == |s| {
        assert Concat([s]) == s + "" == s;
      } else {
        var gap := FirstBreak(s);
        var line, rest := s[..LineLength(s)], AfterFirstLine(s);
        InkOfLines(rest);
        InkOfGap(line, gap, rest);
        InkOfCons(line, SplitLines(rest));
      }
    }
  }

  lemma InkOfGap(s: string, gap: string, t: string)
    requires Blank(gap)
    ensures Ink(s + gap + t) == Ink(s) + Ink(t)
  {
    InkConcat(s + gap, t);
    InkConcat(s, gap);
    InkOfBlank(gap);
  }

  lemma InkOfCons(first: string, rest: seq<string>)
    ensures Ink(Concat([first] + rest)) == Ink(first) + Ink(Concat(rest))
  {
    assert ([first] + rest)[1..] == rest;
    InkConcat(first, Concat(rest));
  }

  /** On any text: the ink of the statements is the ink of the non-comment lines. */
  lemma NothingElseIsLost(sql: string)
    ensures Ink(Concat(Split(sql))) == Ink(Concat(WithoutComments(SplitLines(sql))))
  {
    var kept := WithoutComments(SplitLines(sql));
    InkOfStatements(SplitOn(StripComments(sql), ';'));
    InkOfParts(StripComments(sql));
    InkOfJoin(kept, "\n");
  }

  /** The text of some lines, each ended by a line feed. */
  function Lines(lines: seq<string>): string {
    if lines == [] then "" else lines[0] + "\n" + Lines(lines[1..])
  }

  lemma LinesStep(lines: seq<string>, rest: string)
    requires lines != []
    ensures Lines(lines) + rest == lines[0] + "\n" + (Lines(lines[1..]) + rest)
  {
    Associate(lines[0] + "\n", Lines(lines[1..]), rest);
  }

  lemma LinesOneMore(lines: seq<string>, rest: string, after: seq<string>)
    requires lines != [] && OneLine(lines[0]) && SplitLines(Lines(lines[1..]) + rest) == after
    ensures SplitLines(Lines(lines) + rest) == [lines[0]] + after
  {
    LinesStep(lines, rest);
    SplitLinesCons(lines[0], Lines(lines[1..]) + rest);
  }

  lemma FirstOf(s: seq<string>, t: seq<string>)
    requires s != []
    ensures [s[0]] + (s[1..] + t) == s + t
  {
  }

  lemma {:induction false} LinesOf(lines: seq<string>, rest: string)
    requires forall l | l in lines :: OneLine(l)
    ensures SplitLines(Lines(lines) + rest) == lines + SplitLines(rest)
  {
    if lines == [] {
      assert Lines(lines) + rest == rest;
    } else {
      LinesOf(lines[1..], rest);
      LinesOneMore(lines, rest, lines[1..] + SplitLines(rest));
      FirstOf(lines, SplitLines(rest));
    }
  }

  lemma {:induction false} WithoutCommentsConcat(s: seq<string>, t: seq<string>)
    ensures WithoutComments(s + t) == WithoutComments(s) + WithoutComments(t)
  {
    if s == [] {
      assert s + t == t;
    } else {
      WithoutCommentsConcat(s[1..], t);
      assert (s + t)[0] == s[0] && (s + t)[1..] == s[1..] + t;
    }
  }

  /** A line of white space, `--` and anything adds nothing, wherever it stands. */
  lemma CommentLineAddsNothing(before: seq<string>, blanks: string, text: string, rest: string)
    requires Blank(blanks) && OneLine(blanks + "--" + text) && forall l | l in before :: OneLine(l)
    ensures Split(Lines(before) + (blanks + "--" + text + "\n" + rest)) == Split(Lines(before) + rest)
  {
    var line := blanks + "--" + text;
    assert line[..|blanks|] == blanks && line[|blanks|] == '-' && line[|blanks| + 1] == '-';
    assert Commented(line);
    CommentedIff(line);
    LinesOf(before, line + "\n" + rest);
    LinesOf(before, rest);
    SplitLinesCons(line, rest);
    WithoutCommentsConcat(before, [line] + SplitLines(rest));
    WithoutCommentsConcat(before, SplitLines(rest));
    WithoutCommentsConcat([line], SplitLines(rest));
  }

  // ---------------------------------------------------------------------------
  // The printer's inverse
  // ---------------------------------------------------------------------------

  lemma {:induction false} CommentWithSemicolon(line: string)
    ensures IsCommentLine(line + ";") <==> IsCommentLine(line)
  {
    if line != "" && IsSpace(line[0]) {
      CommentWithSemicolon(line[1..]);
      assert (line + ";")[1..] == line[1..] + ";";
    } else {
      var t := line + ";";
      assert TrimLeft(t) == t;
      assert |line| >= 2 ==> t[..2] == line[..2];
      assert |line| == 1 ==> t[1] == ';';
    }
  }

  /** Comment lines of a joined text are the comment lines of its statements. */
  lemma {:induction false} CommentsOfTerminated(s: string, rest: string)
    requires s != "" && OnlyNewlines(s) && !IsLineBreak(s[|s| - 1])
    ensures NoComments(s + TERMINATOR + rest) <==> NoComments(s) && NoComments(rest)
    decreases |s|
  {
    if LineLength(s) == |s| {
      LastLineTerminated(s, rest);
    } else {
      var line, s' := FirstLine(s);
      CommentsOfTerminated(s', rest);
      SplitLinesCons(line, s');
      NoCommentsCons(s, line, s');
      SplitLinesCons(line, s' + TERMINATOR + rest);
      Regroup(line, "\n", s', TERMINATOR, rest);
      NoCommentsCons(s + TERMINATOR + rest, line, s' + TERMINATOR + rest);
    }
  }

  lemma Regroup(a: string, b: string, c: string, d: string, e: string)
    ensures a + b + (c + d + e) == a + b + c + d + e
  {
  }

  lemma LastLineTerminated(s: string, rest: string)
    requires s != "" && OneLine(s)
    ensures NoComments(s + TERMINATOR + rest) <==> NoComments(s) && NoComments(rest)
  {
    SplitLinesLast(s);
    CommentWithSemicolon(s);
    SplitLinesCons(s + ";", rest);
    NoCommentsCons(s + ";" + "\n" + rest, s + ";", rest);
    assert s + ";" + "\n" == s + TERMINATOR;
  }

  lemma FirstLine(s: string) returns (line: string, rest: string)
    requires s != "" && OnlyNewlines(s) && !IsLineBreak(s[|s| - 1]) && LineLength(s) < |s|
    ensures s == line + "\n" + rest && OneLine(line)
    ensures rest != "" && OnlyNewlines(rest) && !IsLineBreak(rest[|rest| - 1]) && |rest| < |s|
  {
    var n := LineLength(s);
    assert s[n] in s;
    line, rest := s[..n], s[n + 1..];
    assert rest != "" && rest[|rest| - 1] == s[|s| - 1];
    assert forall c | c in rest :: c in s;
  }

  lemma NoCommentsCons(t: string, line: string, rest: string)
    requires SplitLines(t) == [line] + SplitLines(rest)
    ensures NoComments(t) <==> !IsCommentLine(line) && NoComments(rest)
  {
    assert line in SplitLines(t);
    assert forall l | l in SplitLines(rest) :: l in SplitLines(t);
  }

  ghost predicate Printable(s: string) {
    s != "" && Trimmed(s) && ';' !in s && OnlyNewlines(s)
  }

  lemma {:induction false} CommentsOfJoined(ss: seq<string>)
    requires forall s | s in ss :: Printable(s)
    ensures NoComments(Join(ss, TERMINATOR)) <==> forall s | s in ss :: NoComments(s)
    ensures OnlyNewlines(Join(ss, TERMINATOR)) && Trimmed(Join(ss, TERMINATOR))
    ensures ss != [] ==> Join(ss, TERMINATOR) != ""
  {
    if |ss| == 1 {
      assert ss[0] in ss;
    } else if |ss| > 1 {
      CommentsOfJoined(ss[1..]);
      assert ss[0] in ss;
      CommentsOfTerminated(ss[0], Join(ss[1..], TERMINATOR));
      assert forall s | s in ss :: s == ss[0] || s in ss[1..];
    }
  }

  lemma {:induction false} KeepEverything(lines: seq<string>)
    requires forall l | l in lines :: !IsCommentLine(l)
    ensures WithoutComments(lines) == lines
  {
    if lines != [] {
      KeepEverything(lines[1..]);
    }
  }

  /** Text whose only breaks are inner line feeds is the join of its lines. */
  lemma {:induction false} LinesJoinBack(s: string)
    requires OnlyNewlines(s) && (s != "" ==> !IsLineBreak(s[|s| - 1]))
    ensures Join(SplitLines(s), "\n") == s
    decreases |s|
  {
    if s != "" {
      if LineLength(s) == |s| {
        SplitLinesLast(s);
      } else {
        var line, rest := FirstLine(s);
        LinesJoinBack(rest);
        SplitLinesCons(line, rest);
        assert SplitLines(rest) != [];
        assert ([line] + SplitLines(rest))[1..] == SplitLines(rest);
      }
    }
  }

  lemma {:induction false} SplitsAtTerminators(lead: string, ss: seq<string>)
    requires Blank(lead) && ';' !in lead
    requires forall s | s in ss :: Printable(s)
    ensures Statements(SplitOn(lead + Join(ss, TERMINATOR), ';')) == ss
    decreases |ss|
  {
    if ss == [] {
      assert lead + Join(ss, TERMINATOR) == lead;
      SplitOnWithout(lead, ';');
      TrimOfPadded(lead, "", "");
      assert lead + "" + "" == lead;
    } else {
      var first, rest := ss[0], ss[1..];
      assert first in ss;
      TrimOfPadded(lead, first, "");
      assert lead + first + "" == lead + first;
      if rest == [] {
        SplitOnWithout(lead + first, ';');
      } else {
        var tail := Join(rest, TERMINATOR);
        assert lead + Join(ss, TERMINATOR) == (lead + first) + [';'] + ("\n" + tail);
        SplitOnAtSeparator(lead + first, ';', "\n" + tail);
        assert Blank("\n");
        SplitsAtTerminators("\n", rest);
      }
    }
  }

  lemma {:induction false} DroppedLinesCost(lines: seq<string>)
    ensures |Ink(Concat(WithoutComments(lines)))| <= |Ink(Concat(lines))|
    ensures |Ink(Concat(WithoutComments(lines)))| == |Ink(Concat(lines))| ==>
              forall l | l in lines :: !IsCommentLine(l)
  {
    if lines != [] {
      var first, rest := lines[0], lines[1..];
      DroppedLinesCost(rest);
      InkConcat(first, Concat(rest));
      if IsCommentLine(first) {
        CommentHasInk(first);
      } else {
        var kept := WithoutComments(rest);
        assert ([first] + kept)[1..] == kept;
        InkConcat(first, Concat(kept));
      }
    }
  }

  lemma CommentHasInk(line: string)
    requires IsCommentLine(line)
    ensures Ink(line) != ""
  {
    var cut := TrimLeftCuts(line);
    InkConcat(cut, TrimLeft(line));
    assert TrimLeft(line)[0] == COMMENT[0];
  }

  /** Printing and splitting again gives the statements back exactly when all are clean. */
  lemma RoundTrip(ss: seq<string>)
    ensures Split(Join(ss, TERMINATOR)) == ss <==> forall s | s in ss :: Clean(s)
  {
    if forall s | s in ss :: Clean(s) {
      CleanComesBack(ss);
    }
    if Split(Join(ss, TERMINATOR)) == ss {
      OnlyCleanComesBack(ss);
    }
  }

  lemma CleanComesBack(ss: seq<string>)
    requires forall s | s in ss :: Clean(s)
    ensures Split(Join(ss, TERMINATOR)) == ss
  {
    var text := Join(ss, TERMINATOR);
    CommentsOfJoined(ss);
    KeepEverything(SplitLines(text));
    LinesJoinBack(text);
    SplitsAtTerminators("", ss);
    assert "" + text == text;
  }

  lemma OnlyCleanComesBack(ss: seq<string>)
    requires Split(Join(ss, TERMINATOR)) == ss
    ensures forall s | s in ss :: Clean(s)
  {
    var text := Join(ss, TERMINATOR);
    OutputShape(text);
    NothingElseIsLost(text);
    InkOfLines(text);
    InkOfJoin(ss, TERMINATOR);
    DroppedLinesCost(SplitLines(text));
    assert NoComments(text);
    CommentsOfJoined(ss);
  }
}
