/**
 The instruction skill file: `_build_skill_file` writes a front-matter block and the
 trimmed body, `_current_head_instruction` strips the block again by cutting at the
 second `---`. The two undo each other exactly when the workflow id holds no `---`.
 */
module InstructionFile {
  import opened Text

  const FENCE := "---"

  // The front matter on either side of the workflow id, the two fences left out.
  const BEFORE_ID := "\nid: "
  const KIND_LINE := ".instruction\nkind: instruction\n"
  const CREATED_BY := "created_by: nl-gen-iteration-runner\n"
  const TAGS_LINE := "capability_tags: []\n"
  const RETENTION := "retention:\n  remembers: []\n"
  const RETENTION_REST := "  refetches: []\n  stateless: true\n"

  function AfterId(): string {
    KIND_LINE + CREATED_BY + TAGS_LINE + RETENTION + RETENTION_REST
  }

  /** `_build_skill_file`. */
  function Build(workflowId: string, body: string): string {
    FENCE + BEFORE_ID + workflowId + AfterId() + FENCE + "\n" + Trim(body) + "\n"
  }

  /** Python's `x or None` on a string. */
  function OrNone(s: string): Option<string> {
    if s == "" then None else Some(s)
  }

  /** `s.lstrip("\n")`. */
  function TrimNewlines(s: string): string {
    if s != "" && s[0] == '\n' then TrimNewlines(s[1..]) else s
  }

  /** `_current_head_instruction`, from the head version's content on. */
  function ReadBack(content: string): Option<string> {
    if FENCE <= content then
      // content.split("---", 2): the first cut is at 0, the second at the next fence
      match IndexFrom(content, FENCE, |FENCE|)
      case Some(i) => OrNone(TrimRight(TrimNewlines(content[i + |FENCE|..])))
      case None => OrNone(Trim(content))
    else OrNone(Trim(content))
  }

  // ---------------------------------------------------------------------------
  // Where the second fence is found
  // ---------------------------------------------------------------------------

  ghost predicate NoDoubleDash(s: string) {
    forall i | 0 <= i < |s| - 1 :: !(s[i] == '-' && s[i + 1] == '-')
  }

  /** Text that can stand between the id and the second fence without hiding either. */
  ghost predicate Separates(s: string) {
    s != "" && s[0] == '.' && s[|s| - 1] == '\n' && NoDoubleDash(s)
  }

  ghost predicate EndsLine(s: string) {
    s != "" && s[|s| - 1] == '\n' && NoDoubleDash(s)
  }

  lemma SeparatesThen(s: string, t: string)
    requires Separates(s) && EndsLine(t)
    ensures Separates(s + t)
  {
  }

  lemma FixedLines()
    ensures Separates(KIND_LINE) && EndsLine(CREATED_BY) && EndsLine(TAGS_LINE)
    ensures EndsLine(RETENTION) && EndsLine(RETENTION_REST)
  {
  }

  lemma AfterIdSeparates()
    ensures Separates(AfterId())
  {
    FixedLines();
    JoinedLinesSeparate(KIND_LINE, CREATED_BY, TAGS_LINE, RETENTION, RETENTION_REST);
  }

  lemma JoinedLinesSeparate(a: string, b: string, c: string, d: string, e: string)
    requires Separates(a) && EndsLine(b) && EndsLine(c) && EndsLine(d) && EndsLine(e)
    ensures Separates(a + b + c + d + e)
  {
    SeparatesThen(a, b);
    SeparatesThen(a + b, c);
    SeparatesThen(a + b + c, d);
    SeparatesThen(a + b + c + d, e);
  }

  /** The shape of a built file; `pre`, `post` and `tail` stand for the fixed text. */
  ghost function Shape(pre: string, id: string, post: string, tail: string): string {
    FENCE + pre + id + post + FENCE + tail
  }

  lemma BuildShape(workflowId: string, body: string)
    ensures Build(workflowId, body) == Shape(BEFORE_ID, workflowId, AfterId(), "\n" + Trim(body) + "\n")
  {
    var f := FENCE + BEFORE_ID + workflowId + AfterId() + FENCE;
    assert f + "\n" + Trim(body) + "\n" == f + ("\n" + Trim(body) + "\n");
  }

  lemma ShapeCut(pre: string, id: string, post: string, tail: string)
    ensures var c := Shape(pre, id, post, tail);
            var n := 3 + |pre| + |id| + |post|;
            && FENCE <= c && MatchesAt(c, FENCE, n) && c[n + 3..] == tail
            && c[3 + |pre| + |id|..] == post + FENCE + tail
            && c[3 + |pre|..3 + |pre| + |id|] == id
            && c[3..3 + |pre|] == pre
            && c[3 + |pre| + |id|..n] == post
  {
    var c := Shape(pre, id, post, tail);
    var n := 3 + |pre| + |id| + |post|;
    assert c[n..n + 3] == FENCE;
    assert c == FENCE + (pre + (id + (post + (FENCE + tail))));
  }

  /** A fence before the written one must lie inside the workflow id. */
  lemma EarlyFenceIsInId(pre: string, id: string, post: string, tail: string, i: nat)
    requires '-' !in pre && Separates(post)
    requires 3 <= i < 3 + |pre| + |id| + |post|
    requires MatchesAt(Shape(pre, id, post, tail), FENCE, i)
    ensures Contains(id, FENCE)
  {
    ShapeCut(pre, id, post, tail);
    EarlyFence(Shape(pre, id, post, tail), pre, id, post, i);
  }

  lemma EarlyFence(c: string, pre: string, id: string, post: string, i: nat)
    requires '-' !in pre && Separates(post)
    requires 3 <= i < 3 + |pre| + |id| + |post| <= |c|
    requires c[3..3 + |pre|] == pre && c[3 + |pre|..3 + |pre| + |id|] == id
    requires c[3 + |pre| + |id|..3 + |pre| + |id| + |post|] == post
    requires MatchesAt(c, FENCE, i)
    ensures Contains(id, FENCE)
  {
    var b, e := 3 + |pre|, 3 + |pre| + |id|;
    assert c[i] == c[i..i + 3][0] && c[i + 1] == c[i..i + 3][1] && c[i + 2] == c[i..i + 3][2];
    assert c[e] == c[e..e + |post|][0];
    assert i + 3 <= e;
    SliceOfSlice(c, b, e, i - b, i - b + 3);
    assert MatchesAt(id, FENCE, i - b);
  }

  /** A fence inside the workflow id is found before the written one. */
  lemma IdFenceIsEarly(pre: string, id: string, post: string, tail: string, j: nat)
    requires MatchesAt(id, FENCE, j)
    ensures MatchesAt(Shape(pre, id, post, tail), FENCE, 3 + |pre| + j)
  {
    ShapeCut(pre, id, post, tail);
    MatchInSlice(Shape(pre, id, post, tail), 3 + |pre|, id, j);
  }

  lemma MatchInSlice(c: string, b: nat, id: string, j: nat)
    requires b + |id| <= |c| && c[b..b + |id|] == id && MatchesAt(id, FENCE, j)
    ensures MatchesAt(c, FENCE, b + j)
  {
    SliceOfSlice(c, b, b + |id|, j, j + 3);
  }

  // ---------------------------------------------------------------------------
  // The round trip
  // ---------------------------------------------------------------------------

  lemma {:induction false} TrimNewlinesKeeps(x: string, y: string)
    requires y != "" && y[0] != '\n'
    ensures exists kept: string :: TrimNewlines(x + y) == kept + y
  {
    var s := x + y;
    if x == "" {
      assert s == y && TrimNewlines(s) == "" + y;
    } else if x[0] == '\n' {
      assert s[1..] == x[1..] + y;
      TrimNewlinesKeeps(x[1..], y);
    } else {
      assert s[0] == x[0] && TrimNewlines(s) == x + y;
    }
  }

  lemma BodyComesBack(body: string)
    ensures TrimRight(TrimNewlines("\n" + Trim(body) + "\n")) == Trim(body)
  {
    var t := Trim(body);
    var _, _ := TrimCuts(body);
    assert ("\n" + t + "\n")[1..] == t + "\n";
    if t == "" {
      assert t + "\n" == "\n";
      assert "\n"[1..] == "";
      assert TrimNewlines("\n") == TrimNewlines("") == "";
    } else {
      assert IsSpace('\n');
      assert TrimNewlines(t + "\n") == t + "\n";
      TrimRightOfBlankTail(t, "\n");
      TrimmedStays(t);
    }
  }

  /** Cutting white space off the right keeps everything up to any other character. */
  lemma TrimRightReaches(s: string, p: nat)
    requires p < |s| && !IsSpace(s[p])
    ensures |TrimRight(s)| > p
  {
    var cut := TrimRightCuts(s);
  }

  /** With a fence in the id, what is read back still carries front matter. */
  lemma FrontMatterLeaks(x: string, post: string, t: string)
    requires post != "" && post[0] == '.' && Trimmed(t)
    ensures |TrimRight(TrimNewlines(x + (post + FENCE + ("\n" + t + "\n"))))| > |t|
  {
    var y := post + FENCE + ("\n" + t + "\n");
    TrimNewlinesKeeps(x, y);
    var kept: string :| TrimNewlines(x + y) == kept + y;
    var s, d := kept + y, |kept| + |post|;
    if t == "" {
      assert s[d] == y[|post|] == '-';
      TrimRightReaches(s, d);
    } else {
      assert s[d + 3 + |t|] == y[|post| + 3 + |t|] == t[|t| - 1];
      TrimRightReaches(s, d + 3 + |t|);
    }
  }

  /**
   For every workflow id and body: the body comes back, trimmed, and a blank body as
   `None`, if and only if the id does not contain the fence. Bodies may contain it.
   */
  lemma RoundTrip(workflowId: string, body: string)
    ensures ReadBack(Build(workflowId, body)) == OrNone(Trim(body)) <==> !Contains(workflowId, FENCE)
  {
    AfterIdSeparates();
    BuildShape(workflowId, body);
    var _, _ := TrimCuts(body);
    BodyComesBack(body);
    RoundTripOfShape(BEFORE_ID, workflowId, AfterId(), Trim(body));
  }

  lemma RoundTripOfShape(pre: string, id: string, post: string, t: string)
    requires '-' !in pre && Separates(post) && Trimmed(t)
    requires TrimRight(TrimNewlines("\n" + t + "\n")) == t
    ensures ReadBack(Shape(pre, id, post, "\n" + t + "\n")) == OrNone(t) <==> !Contains(id, FENCE)
  {
    var tail := "\n" + t + "\n";
    ShapeCut(pre, id, post, tail);
    var e := 3 + |pre| + |id|;
    var c: string :| c == Shape(pre, id, post, tail);
    if Contains(id, FENCE) {
      var j: nat :| MatchesAt(id, FENCE, j);
      IdFenceIsEarly(pre, id, post, tail, j);
      ReadBackWithFenceInId(c, e, 3 + |pre| + j, post, t);
    } else {
      forall i: nat | 3 <= i < e + |post| ensures !MatchesAt(c, FENCE, i) {
        if MatchesAt(c, FENCE, i) {
          EarlyFenceIsInId(pre, id, post, tail, i);
        }
      }
      ReadBackAtFence(c, e + |post|, tail);
    }
  }

  lemma ReadBackAtFence(c: string, n: nat, tail: string)
    requires FENCE <= c && n >= 3 && MatchesAt(c, FENCE, n) && c[n + 3..] == tail
    requires forall i: nat | 3 <= i < n :: !MatchesAt(c, FENCE, i)
    ensures ReadBack(c) == OrNone(TrimRight(TrimNewlines(tail)))
  {
    assert IndexFrom(c, FENCE, 3) == Some(n);
  }

  lemma SuffixSplits(c: string, p: nat, e: nat)
    requires p <= e <= |c|
    ensures c[p..] == c[p..e] + c[e..]
  {
  }

  lemma ReadBackWithFenceInId(c: string, e: nat, early: nat, post: string, t: string)
    requires FENCE <= c && 3 <= early && early + 3 <= e <= |c| && MatchesAt(c, FENCE, early)
    requires c[e..] == post + FENCE + ("\n" + t + "\n")
    requires post != "" && post[0] == '.' && Trimmed(t)
    ensures ReadBack(c) != OrNone(t)
  {
    var i := IndexFrom(c, FENCE, 3).value;
    SuffixSplits(c, i + 3, e);
    FrontMatterLeaks(c[i + 3..e], post, t);
  }

  /** Saving what was read back writes the same file again. */
  lemma SavingTwice(workflowId: string, body: string)
    requires !Contains(workflowId, FENCE) && Trim(body) != ""
    ensures ReadBack(Build(workflowId, body)) == Some(Trim(body))
    ensures Build(workflowId, Trim(body)) == Build(workflowId, body)
  {
    RoundTrip(workflowId, body);
    var _, _ := TrimCuts(body);
    TrimOfPadded("", Trim(body), "");
    assert "" + Trim(body) + "" == Trim(body);
  }

  // ---------------------------------------------------------------------------
  // The file, and content that is no such file
  // ---------------------------------------------------------------------------

  /** The file that is written: ten lines of front matter around the id, then the trimmed body. */
  lemma FileText(workflowId: string, body: string)
    ensures Build(workflowId, body)
         == "---" + "\nid: " + workflowId
            + (".instruction\nkind: instruction\n" + "created_by: nl-gen-iteration-runner\n"
               + "capability_tags: []\n" + "retention:\n  remembers: []\n" + "  refetches: []\n  stateless: true\n")
            + "---" + "\n" + Trim(body) + "\n"
  {
  }

  /** Content that does not open with a fence, or has no second one, is read back trimmed as it is. */
  lemma PlainContentIsTrimmed(content: string)
    requires !("---" <= content) || forall i: nat | i >= 3 :: !MatchesAt(content, "---", i)
    ensures ReadBack(content).None? <==> Blank(content)
    ensures ReadBack(content).Some? ==> ReadBack(content).value == Trim(content)
  {
    TrimOfBlank(content);
  }
}
