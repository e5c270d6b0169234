/**
 The string operations the other modules lean on, with Python's meaning: `str.strip`,
 `str.splitlines`, `str.split`, `str.join` and substring search.
 */
module Text {

  datatype Option<+T> = None | Some(value: T)

  /** `str.isspace` for one character. */
  predicate IsSpace(c: char) {
    var k := c as int;
    9 <= k <= 13 || 28 <= k <= 32 || k == 0x85 || k == 0xA0 || k == 0x1680
    || 0x2000 <= k <= 0x200A || k == 0x2028 || k == 0x2029 || k == 0x202F || k == 0x205F || k == 0x3000
  }

  /** The characters at which `str.splitlines` breaks; all of them are white space. */
  predicate IsLineBreak(c: char) {
    var k := c as int;
    10 <= k <= 13 || 28 <= k <= 30 || k == 0x85 || k == 0x2028 || k == 0x2029
  }

  // ---------------------------------------------------------------------------
  // Stripping
  // ---------------------------------------------------------------------------

  function TrimLeft(s: string): string {
    if s != "" && IsSpace(s[0]) then TrimLeft(s[1..]) else s
  }

  function TrimRight(s: string): string {
    if s != "" && IsSpace(s[|s| - 1]) then TrimRight(s[..|s| - 1]) else s
  }

  function Trim(s: string): string {
    TrimRight(TrimLeft(s))
  }

  /** Neither end of `s` is white space. */
  predicate Trimmed(s: string) {
    s != "" ==> !IsSpace(s[0]) && !IsSpace(s[|s| - 1])
  }

  predicate Blank(s: string) {
    forall c | c in s :: IsSpace(c)
  }

  /** `Trim` cuts white space, and only white space, off both ends. */
  lemma {:induction false} TrimLeftCuts(s: string) returns (cut: string)
    ensures s == cut + TrimLeft(s) && Blank(cut)
    ensures TrimLeft(s) != "" ==> !IsSpace(TrimLeft(s)[0])
  {
    if s != "" && IsSpace(s[0]) {
      var rest := TrimLeftCuts(s[1..]);
      cut := [s[0]] + rest;
    } else {
      cut := "";
    }
  }

  lemma {:induction false} TrimRightCuts(s: string) returns (cut: string)
    ensures s == TrimRight(s) + cut && Blank(cut)
    ensures TrimRight(s) != "" ==> !IsSpace(TrimRight(s)[|TrimRight(s)| - 1])
  {
    if s != "" && IsSpace(s[|s| - 1]) {
      var rest := TrimRightCuts(s[..|s| - 1]);
      cut := rest + [s[|s| - 1]];
      assert s == s[..|s| - 1] + [s[|s| - 1]];
    } else {
      cut := "";
    }
  }

  lemma TrimCuts(s: string) returns (left: string, right: string)
    ensures s == left + Trim(s) + right && Blank(left) && Blank(right)
    ensures Trimmed(Trim(s))
  {
    left := TrimLeftCuts(s);
    right := TrimRightCuts(TrimLeft(s));
    assert s == left + (Trim(s) + right);
  }

  lemma TrimOfBlank(s: string)
    ensures Trim(s) == "" <==> Blank(s)
  {
    var left, right := TrimCuts(s);
    if Trim(s) != "" {
      assert s[|left|] == Trim(s)[0];
    }
  }

  lemma TrimmedStays(s: string)
    requires Trimmed(s)
    ensures Trim(s) == s && TrimRight(s) == s
  {
  }

  lemma {:induction false} TrimRightOfBlankTail(s: string, tail: string)
    requires Blank(tail)
    ensures TrimRight(s + tail) == TrimRight(s)
    decreases |tail|
  {
    if tail == "" {
      assert s + tail == s;
    } else {
      var t := s + tail;
      assert t[|t| - 1] == tail[|tail| - 1];
      assert t[..|t| - 1] == s + tail[..|tail| - 1];
      TrimRightOfBlankTail(s, tail[..|tail| - 1]);
    }
  }

  lemma {:induction false} TrimLeftOfBlankHead(head: string, s: string)
    requires Blank(head)
    ensures TrimLeft(head + s) == TrimLeft(s)
    decreases |head|
  {
    if head == "" {
      assert head + s == s;
    } else {
      assert (head + s)[1..] == head[1..] + s;
      TrimLeftOfBlankHead(head[1..], s);
    }
  }

  /** Padding a trimmed string with white space changes nothing. */
  lemma TrimOfPadded(head: string, s: string, tail: string)
    requires Blank(head) && Blank(tail) && Trimmed(s)
    ensures Trim(head + s + tail) == s
  {
    assert head + s + tail == head + (s + tail);
    TrimLeftOfBlankHead(head, s + tail);
    if s == "" {
      assert s + tail == tail + s;
      TrimLeftOfBlankHead(tail, s);
    } else {
      TrimRightOfBlankTail(s, tail);
      TrimmedStays(s);
    }
  }

  // ---------------------------------------------------------------------------
  // Searching
  // ---------------------------------------------------------------------------

  predicate MatchesAt(s: string, pattern: string, i: nat) {
    i + |pattern| <= |s| && s[i..i + |pattern|] == pattern
  }

  /** `pattern in s`. */
  ghost predicate Contains(s: string, pattern: string) {
    exists i: nat :: MatchesAt(s, pattern, i)
  }

  /** `s.find(pattern, from)`. */
  function IndexFrom(s: string, pattern: string, from: nat): (r: Option<nat>)
    ensures r.Some? ==> from <= r.value && MatchesAt(s, pattern, r.value)
    ensures r.Some? ==> forall i: nat | from <= i < r.value :: !MatchesAt(s, pattern, i)
    ensures r.None? ==> forall i: nat | from <= i :: !MatchesAt(s, pattern, i)
    decreases if from <= |s| then |s| - from + 1 else 0
  {
    if from > |s| then None
    else if MatchesAt(s, pattern, from) then Some(from)
    else IndexFrom(s, pattern, from + 1)
  }

  // ---------------------------------------------------------------------------
  // Splitting and joining
  // ---------------------------------------------------------------------------

  /** `s.split(sep)` for a one-character separator: never empty. */
  function SplitOn(s: string, sep: char): (parts: seq<string>)
    ensures parts != []
    ensures forall p | p in parts :: sep !in p
  {
    if s == "" then [""]
    else
      var rest := SplitOn(s[1..], sep);
      if s[0] == sep then [""] + rest else [[s[0]] + rest[0]] + rest[1..]
  }

  /** `sep.join(parts)`. */
  function Join(parts: seq<string>, sep: string): string {
    if parts == [] then ""
    else if |parts| == 1 then parts[0]
    else parts[0] + sep + Join(parts[1..], sep)
  }

  function Concat(parts: seq<string>): string {
    if parts == [] then "" else parts[0] + Concat(parts[1..])
  }

  lemma {:induction false} SplitOnAtSeparator(s: string, sep: char, rest: string)
    requires sep !in s
    ensures SplitOn(s + [sep] + rest, sep) == [s] + SplitOn(rest, sep)
  {
    var t := s + [sep] + rest;
    if s == "" {
      assert t[1..] == rest;
    } else {
      SplitOnAtSeparator(s[1..], sep, rest);
      assert t[1..] == s[1..] + [sep] + rest;
      assert [s[0]] + s[1..] == s;
    }
  }

  lemma {:induction false} SplitOnWithout(s: string, sep: char)
    requires sep !in s
    ensures SplitOn(s, sep) == [s]
  {
    if s != "" {
      SplitOnWithout(s[1..], sep);
      assert [s[0]] + s[1..] == s;
    }
  }

  ghost predicate OneLine(s: string) {
    forall c | c in s :: !IsLineBreak(c)
  }

  /** Length of the first line, its terminator excluded. */
  function LineLength(s: string): (n: nat)
    ensures n <= |s|
    ensures forall i | 0 <= i < n :: !IsLineBreak(s[i])
    ensures n < |s| ==> IsLineBreak(s[n])
  {
    if s == "" || IsLineBreak(s[0]) then 0 else 1 + LineLength(s[1..])
  }

  /** A carriage return and the line feed after it end one line, not two. */
  function BreakWidth(s: string): (n: nat)
    requires s != ""
    ensures 1 <= n <= |s|
  {
    if |s| >= 2 && s[0] == '\r' && s[1] == '\n' then 2 else 1
  }

  function AfterFirstLine(s: string): (rest: string)
    requires LineLength(s) < |s|
    ensures |rest| < |s|
  {
    var n := LineLength(s);
    s[n + BreakWidth(s[n..])..]
  }

  lemma BreakIsBlank(tail: string)
    requires tail != "" && IsLineBreak(tail[0])
    ensures Blank(tail[..BreakWidth(tail)])
  {
    if BreakWidth(tail) == 2 {
      assert tail[..2] == ['\r', '\n'];
    } else {
      assert tail[..1] == [tail[0]];
    }
  }

  lemma FirstBreak(s: string) returns (gap: string)
    requires LineLength(s) < |s|
    ensures s == s[..LineLength(s)] + gap + AfterFirstLine(s) && Blank(gap)
  {
    var n := LineLength(s);
    var w := BreakWidth(s[n..]);
    gap := s[n..][..w];
    BreakIsBlank(s[n..]);
    ThreeParts(s, n, n + w);
    assert gap == s[n..n + w];
  }

  lemma SliceOfSlice(s: string, b: nat, e: nat, i: nat, j: nat)
    requires b <= e <= |s| && i <= j <= e - b
    ensures s[b..e][i..j] == s[b + i..b + j]
  {
    var x, y := s[b..e][i..j], s[b + i..b + j];
    assert |x| == |y|;
    forall k | 0 <= k < |x| ensures x[k] == y[k] {
      assert x[k] == s[b..e][i + k] == s[b + i + k];
    }
  }

  lemma ThreeParts(s: string, m: nat, n: nat)
    requires m <= n <= |s|
    ensures s == s[..m] + s[m..n] + s[n..]
  {
    assert s[m..] == s[m..n] + s[n..];
    assert s == s[..m] + s[m..];
  }

  /** `s.splitlines()`. */
  function SplitLines(s: string): (lines: seq<string>)
    ensures forall l | l in lines :: OneLine(l)
    decreases |s|
  {
    if s == "" then []
    else
      var n := LineLength(s);
      if n == |s| then [s]
      else [s[..n]] + SplitLines(AfterFirstLine(s))
  }

  /** A first line, its line feed and the rest: the only shape `\n`-text can have. */
  lemma SplitLinesCons(line: string, rest: string)
    requires OneLine(line)
    ensures SplitLines(line + "\n" + rest) == [line] + SplitLines(rest)
  {
    var s := line + "\n" + rest;
    assert s[|line|] == '\n';
    assert forall i | 0 <= i < |line| :: s[i] == line[i];
    assert LineLength(s) == |line|;
    assert s[..|line|] == line && s[|line| + 1..] == rest;
    assert BreakWidth(s[|line|..]) == 1;
  }

  lemma SplitLinesLast(line: string)
    requires line != "" && OneLine(line)
    ensures SplitLines(line) == [line]
  {
    assert LineLength(line) == |line|;
  }

  lemma Associate<T>(a: seq<T>, b: seq<T>, c: seq<T>)
    ensures a + b + c == a + (b + c)
  {
  }
}
