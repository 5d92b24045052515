/** The two-pass comment stripping of `_strip_sql_comments`: closed block comments first,
    then line comments, each replaced by one space, and the result trimmed. */
module SqlComments {
  import opened Text

  const OPEN := "/*"
  const CLOSE := "*/"
  const DASHES := "--"

  predicate OpenAt(s: string, k: int) { PairAt(s, '/', '*', k) }
  predicate CloseAt(s: string, k: int) { PairAt(s, '*', '/', k) }
  predicate DashesAt(s: string, k: int) { PairAt(s, '-', '-', k) }

  function FindClose(s: string): (r: int)
    ensures -1 <= r && (r >= 0 ==> CloseAt(s, r))
  {
    FindPair(s, '*', '/')
  }

  /** The first substitution: every leftmost, shortest closed block comment. */
  function StripBlocks(s: string): string
    decreases |s|
  {
    if s == "" then ""
    else if OpenAt(s, 0) && FindClose(s[2..]) >= 0 then
      " " + StripBlocks(s[2..][FindClose(s[2..]) + 2..])
    else [s[0]] + StripBlocks(s[1..])
  }

  /** The second substitution: two dashes and the rest of their line. */
  function StripLines(s: string): string
    decreases |s|
  {
    if s == "" then ""
    else if DashesAt(s, 0) then " " + StripLines(SkipLine(s[2..]))
    else [s[0]] + StripLines(s[1..])
  }

  /** The text from the first newline on. */
  function SkipLine(s: string): (r: string)
    ensures |r| <= |s| && r == s[|s| - |r|..]
    ensures forall k :: 0 <= k < |s| - |r| ==> s[k] != '\n'
    ensures r != "" ==> r[0] == '\n'
  {
    if s == "" || s[0] == '\n' then s else SkipLine(s[1..])
  }

  function Finish(blockFree: string): string {
    Strip(StripLines(blockFree))
  }

  function StripComments(sql: string): string {
    Finish(StripBlocks(sql))
  }

  /** Putting prefix in front of sql changes nothing in the stripped text. */
  predicate Invisible(prefix: string, sql: string) {
    StripComments(prefix + sql) == StripComments(sql)
  }

  ghost predicate HasClose(s: string) { exists k :: CloseAt(s, k) }
  ghost predicate HasOpen(s: string) { exists k :: OpenAt(s, k) }

  /** No block comment is open at i and closed from i + 2 on. */
  ghost predicate NoClosedBlock(s: string) {
    forall i, j :: OpenAt(s, i) && i + 2 <= j ==> !CloseAt(s, j)
  }

  ghost predicate NoDashes(s: string) {
    forall i :: !DashesAt(s, i)
  }

  // ------------------------------------------------------------------ positions

  lemma FindCloseIff(s: string)
    ensures FindClose(s) >= 0 <==> HasClose(s)
  {
    if HasClose(s) {
      var k :| CloseAt(s, k);
      FindPairLeast(s, '*', '/', k);
    }
  }

  lemma CleanSlice(s: string, lo: int, hi: int)
    requires 0 <= lo <= hi <= |s|
    ensures NoClosedBlock(s) ==> NoClosedBlock(s[lo..hi])
    ensures NoDashes(s) ==> NoDashes(s[lo..hi])
  {
    var t := s[lo..hi];
    if NoClosedBlock(s) {
      forall i, j | OpenAt(t, i) && i + 2 <= j ensures !CloseAt(t, j) {
        assert OpenAt(s, lo + i) && !CloseAt(s, lo + j);
      }
    }
    if NoDashes(s) {
      forall i ensures !DashesAt(t, i) { assert !DashesAt(s, lo + i); }
    }
  }

  /** A closed block in c + r starts at 0 or lies in r. */
  lemma NoClosedBlockCons(c: char, r: string)
    requires NoClosedBlock(r)
    requires c == '/' && r != "" && r[0] == '*' ==> !HasClose(r[1..])
    ensures NoClosedBlock([c] + r)
  {
    var s := [c] + r;
    forall i, j | OpenAt(s, i) && i + 2 <= j ensures !CloseAt(s, j) {
      if i > 0 {
        assert OpenAt(r, i - 1) && !CloseAt(r, j - 1);
      } else {
        assert r[0] == s[1];
        assert !CloseAt(r[1..], j - 2);
      }
    }
  }

  lemma NoDashesCons(c: char, r: string)
    requires NoDashes(r)
    requires c == '-' && r != "" ==> r[0] != '-'
    ensures NoDashes([c] + r)
  {
    forall i ensures !DashesAt([c] + r, i) {
      assert !DashesAt(r, i - 1);
    }
  }

  // ------------------------------------------------------------------ the first pass

  lemma CopyFirst(s: string)
    requires s != "" && !(OpenAt(s, 0) && FindClose(s[2..]) >= 0)
    ensures StripBlocks(s) == [s[0]] + StripBlocks(s[1..])
  {}

  /** Without a closing mark there is nothing for the first pass to do. */
  lemma {:induction false} NothingToClose(s: string)
    requires !HasClose(s)
    ensures StripBlocks(s) == s
  {
    if s != "" {
      SuffixClose(s, 1);
      if |s| >= 2 {
        SuffixClose(s, 2);
        FindCloseIff(s[2..]);
      }
      NothingToClose(s[1..]);
    }
  }

  /** An opening mark that is never closed is copied, and so is all that follows. */
  lemma UnclosedOpening(s: string)
    requires OpenAt(s, 0) && FindClose(s[2..]) < 0
    ensures StripBlocks(s[1..]) == s[1..]
  {
    CopyFirst(s[1..]);
    assert s[1..][1..] == s[2..];
    FindCloseIff(s[2..]);
    NothingToClose(s[2..]);
  }

  lemma {:induction false} BlocksAreGone(s: string)
    ensures NoClosedBlock(StripBlocks(s))
    decreases |s|
  {
    if s == "" {
    } else if OpenAt(s, 0) && FindClose(s[2..]) >= 0 {
      var rest := s[2..][FindClose(s[2..]) + 2..];
      BlocksAreGone(rest);
      NoClosedBlockCons(' ', StripBlocks(rest));
    } else {
      var r := StripBlocks(s[1..]);
      BlocksAreGone(s[1..]);
      if s[0] == '/' && r != "" && r[0] == '*' {
        UnclosedOpening(s);
        FindCloseIff(s[2..]);
        assert r[1..] == s[2..];
      }
      NoClosedBlockCons(s[0], r);
    }
  }

  lemma {:induction false} BlockFreeIsKept(s: string)
    requires NoClosedBlock(s)
    ensures StripBlocks(s) == s
  {
    if s != "" {
      if OpenAt(s, 0) {
        forall k | 0 <= k ensures !CloseAt(s[2..], k) { assert !CloseAt(s, k + 2); }
      }
      CleanSlice(s, 1, |s|);
      assert s[1..|s|] == s[1..];
      BlockFreeIsKept(s[1..]);
    }
  }

  // ------------------------------------------------------------------ the second pass

  lemma {:induction false} LinesAreGone(s: string)
    ensures NoDashes(StripLines(s))
    decreases |s|
  {
    if s == "" {
    } else if DashesAt(s, 0) {
      LinesAreGone(SkipLine(s[2..]));
      NoDashesCons(' ', StripLines(SkipLine(s[2..])));
    } else {
      LinesAreGone(s[1..]);
      NoDashesCons(s[0], StripLines(s[1..]));
    }
  }

  lemma {:induction false} DashFreeIsKept(s: string)
    requires NoDashes(s)
    ensures StripLines(s) == s
  {
    if s != "" {
      assert !DashesAt(s, 0);
      CleanSlice(s, 1, |s|);
      assert s[1..|s|] == s[1..];
      DashFreeIsKept(s[1..]);
    }
  }

  /** A character of the second pass's output that is not a blank was copied. */
  lemma FirstKept(s: string)
    ensures var r := StripLines(s); r != "" && r[0] != ' ' ==> s != "" && r[0] == s[0]
  {}

  lemma CloseCons(c: char, r: string, k: int)
    requires CloseAt([c] + r, k)
    ensures (k >= 1 && CloseAt(r, k - 1)) || (k == 0 && c == '*' && r != "" && r[0] == '/')
  {}

  /** The second pass creates no closing mark. */
  lemma {:induction false} NoNewClose(s: string, k: int)
    requires CloseAt(StripLines(s), k)
    ensures HasClose(s)
    decreases |s|
  {
    var c, n := LineStep(s);
    hide StripLines;
    CloseCons(c, StripLines(s[n..]), k);
    if k >= 1 {
      NoNewClose(s[n..], k - 1);
      SuffixClose(s, n);
    } else {
      FirstKept(s[n..]);
      assert CloseAt(s, 0);
    }
  }

  /** One step of the second pass: a character that was read, or the blank of a line comment. */
  lemma LineStep(s: string) returns (c: char, n: nat)
    requires StripLines(s) != ""
    ensures 1 <= n <= |s| && StripLines(s) == [c] + StripLines(s[n..])
    ensures c == ' ' || (n == 1 && c == s[0])
  {
    if DashesAt(s, 0) {
      c, n := ' ', |s| - |SkipLine(s[2..])|;
      assert s[n..] == SkipLine(s[2..]);
    } else {
      c, n := s[0], 1;
    }
  }

  lemma SuffixClose(s: string, n: int)
    requires 0 <= n <= |s|
    ensures HasClose(s[n..]) ==> HasClose(s)
  {
    if HasClose(s[n..]) {
      var k :| CloseAt(s[n..], k);
      assert CloseAt(s, n + k);
    }
  }

  /** The second pass creates no closed block comment. */
  lemma {:induction false} NoNewBlock(s: string)
    requires NoClosedBlock(s)
    ensures NoClosedBlock(StripLines(s))
    decreases |s|
  {
    if s == "" {
    } else if DashesAt(s, 0) {
      var rest := SkipLine(s[2..]);
      assert rest == s[|s| - |rest|..|s|];
      CleanSlice(s, |s| - |rest|, |s|);
      NoNewBlock(rest);
      NoClosedBlockCons(' ', StripLines(rest));
    } else {
      CleanSlice(s, 1, |s|);
      assert s[1..|s|] == s[1..];
      NoNewBlock(s[1..]);
      var r := StripLines(s[1..]);
      if s[0] == '/' && r != "" && r[0] == '*' {
        assert OpenAt(s, 0);
        assert s[1..][1..] == s[2..];
        assert r[1..] == StripLines(s[2..]);
        forall k | 0 <= k ensures !CloseAt(s[2..], k) { assert !CloseAt(s, k + 2); }
        forall k ensures !CloseAt(r[1..], k) {
          if CloseAt(r[1..], k) { NoNewClose(s[2..], k); }
        }
      }
      NoClosedBlockCons(s[0], r);
    }
  }

  // ------------------------------------------------------------------ main results

  /** The stripped text holds no line comment and no closed block comment. */
  lemma OutputIsCommentFree(sql: string)
    ensures NoClosedBlock(StripComments(sql)) && NoDashes(StripComments(sql))
  {
    var b := StripBlocks(sql);
    var t := StripLines(b);
    BlocksAreGone(sql);
    NoNewBlock(b);
    LinesAreGone(b);
    CleanStrip(t);
  }

  lemma CleanStrip(t: string)
    requires NoClosedBlock(t) && NoDashes(t)
    ensures NoClosedBlock(Strip(t)) && NoDashes(Strip(t))
  {
    var l := LStrip(t);
    var v := LStripFacts(t);
    CleanSlice(t, |v|, |t|);
    assert t[|v|..|t|] == l;
    var r := RStrip(l);
    var w := RStripFacts(l);
    CleanSlice(l, 0, |r|);
    assert l[0..|r|] == r;
  }

  /** Stripping twice is stripping once. */
  lemma StripIdempotent(sql: string)
    ensures StripComments(StripComments(sql)) == StripComments(sql)
  {
    OutputIsCommentFree(sql);
    BlockFreeIsKept(StripComments(sql));
    DashFreeIsKept(StripComments(sql));
    StripTwice(StripLines(StripBlocks(sql)));
  }

  /** Prepending a closed block comment changes nothing, whatever follows it. */
  lemma BlockPrefix(body: string, sql: string)
    requires !HasClose(body)
    ensures Invisible(OPEN + body + CLOSE, sql)
  {
    var s := OPEN + body + CLOSE + sql;
    var inner := body + CLOSE + sql;
    assert s[2..] == inner;
    FirstClose(body, CLOSE, sql);
    assert inner[|body| + 2..] == sql;
    CutFirst(s);
    BlankLead(" ", StripBlocks(sql));
  }

  lemma CutFirst(s: string)
    requires OpenAt(s, 0) && FindClose(s[2..]) >= 0
    ensures StripBlocks(s) == " " + StripBlocks(s[2..][FindClose(s[2..]) + 2..])
  {}

  /** Blanks in front of a text change nothing in the second pass and the trim. */
  lemma {:induction false} BlankLead(w: string, b: string)
    requires Blank(w)
    ensures Finish(w + b) == Finish(b)
  {
    LeadCopied(w, b);
    StripIgnoresLead(w, StripLines(b));
  }

  lemma {:induction false} LeadCopied(w: string, b: string)
    requires Blank(w)
    ensures StripLines(w + b) == w + StripLines(b)
  {
    if w == "" {
      assert w + b == b && w + StripLines(b) == StripLines(b);
    } else {
      assert (w + b)[1..] == w[1..] + b;
      LeadCopied(w[1..], b);
      assert w + StripLines(b) == [w[0]] + (w[1..] + StripLines(b));
    }
  }

  /** In body + mark + more the first closing mark is the one written. */
  lemma FirstClose(body: string, mark: string, more: string)
    requires !HasClose(body)
    requires mark == CLOSE || mark == "\n" + CLOSE
    ensures FindClose(body + mark + more) == |body| + |mark| - 2
  {
    var t, n := body + mark + more, |body| + |mark| - 2;
    FindPairLeast(t, '*', '/', n);
    var r := FindClose(t);
    assert forall k :: 0 <= k < |body| ==> t[k] == body[k];
    assert !CloseAt(body, r);
  }

  // ------------------------------------------------------------------ comments anywhere

  /** A text with neither a closed block comment nor two dashes is trimmed and no more. */
  lemma PlainIsTrimmed(s: string)
    requires NoClosedBlock(s) && NoDashes(s)
    ensures StripComments(s) == Strip(s)
  {
    BlockFreeIsKept(s);
    DashFreeIsKept(s);
  }

  lemma {:induction false} CopiedBefore(a: string, s: string)
    requires !HasOpen(a) && (s != "" ==> s[0] != '*')
    ensures StripBlocks(a + s) == a + StripBlocks(s)
  {
    if a == "" {
      assert a + s == s && a + StripBlocks(s) == StripBlocks(s);
    } else {
      assert a == [a[0]] + a[1..];
      NoOpenTail(a[0], a[1..]);
      assert !OpenAt(a, 0);
      CopyFirst(a + s);
      assert (a + s)[1..] == a[1..] + s;
      CopiedBefore(a[1..], s);
      Assoc([a[0]], a[1..], StripBlocks(s));
    }
  }

  /** The first closed block comment of a text counts as one blank, wherever it stands. */
  lemma BlockIsBlank(a: string, body: string, b: string)
    requires !HasOpen(a) && !HasClose(body)
    ensures StripBlocks(a + (OPEN + body + CLOSE + b)) == a + " " + StripBlocks(b)
    ensures StripComments(a + (OPEN + body + CLOSE + b)) == StripComments(a + (" " + b))
  {
    var s, inner := OPEN + body + CLOSE + b, body + CLOSE + b;
    assert s[2..] == inner;
    FirstClose(body, CLOSE, b);
    assert inner[|body| + 2..] == b;
    CutFirst(s);
    CopyFirst(" " + b);
    assert (" " + b)[1..] == b;
    hide StripBlocks, Finish;
    CopiedBefore(a, s);
    CopiedBefore(a, " " + b);
    Assoc(a, " ", StripBlocks(b));
  }

  /** What the second pass makes of a text with two dashes in it: one blank instead of them and
      of the rest of their line. */
  lemma {:induction false} DashesAreBlank(a: string, line: string, b: string)
    requires NoDashes(a) && (a != "" ==> a[|a| - 1] != '-')
    requires '\n' !in line && (b != "" ==> b[0] == '\n')
    ensures StripLines(a + (DASHES + (line + b))) == a + (" " + StripLines(b))
  {
    var s := DASHES + (line + b);
    if a == "" {
      assert a + s == s && a + (" " + StripLines(b)) == " " + StripLines(b);
      LineGone(line, b);
    } else {
      assert !DashesAt(a, 0);
      assert a == [a[0]] + a[1..] && (a + s)[1..] == a[1..] + s;
      CleanSlice(a, 1, |a|);
      assert a[1..|a|] == a[1..];
      DashesAreBlank(a[1..], line, b);
      assert !DashesAt(a + s, 0);
      Assoc([a[0]], a[1..], " " + StripLines(b));
    }
  }

  // ------------------------------------------------------------------ line comments in front

  /** A line comment in front changes nothing for any text that follows, if and only if
      removing its closed block comments leaves no opening mark in it. */
  lemma {:induction false} LinePrefix(line: string)
    requires '\n' !in line
    ensures (forall sql :: Invisible(DASHES + line + "\n", sql))
            <==> !HasOpen(StripBlocks(line))
  {
    if HasOpen(StripBlocks(line)) {
      var k :| OpenAt(StripBlocks(line), k);
      var t, sql := line + SWALLOWED, CLOSE + "X";
      DanglingSwallows(line, k);
      assert DASHES + line + "\n" + sql == DASHES + t;
      DashesCopied(t);
      hide StripBlocks, Finish;
      LineCommentOnly(StripBlocks(t));
      CloseMarkAlone();
      assert !Invisible(DASHES + line + "\n", sql);
    } else {
      NoNewNewline(line);
      hide StripBlocks, Finish;
      forall sql ensures Invisible(DASHES + line + "\n", sql) {
        LineCopied(line, sql);
        LineDropped(StripBlocks(line), "\n" + StripBlocks(sql));
        BlankLead("\n", StripBlocks(sql));
      }
    }
  }

  lemma DashesCopied(t: string)
    ensures StripBlocks(DASHES + t) == DASHES + StripBlocks(t)
  {
    var s := DASHES + t;
    CopyFirst(s);
    CopyFirst(s[1..]);
    assert s[1..][1..] == t;
  }

  lemma LineCopied(line: string, sql: string)
    requires !HasOpen(StripBlocks(line))
    ensures StripBlocks(DASHES + line + "\n" + sql) == DASHES + (StripBlocks(line) + ("\n" + StripBlocks(sql)))
  {
    var rest := "\n" + sql;
    Assoc(DASHES + line, "\n", sql);
    Assoc(DASHES, line, rest);
    DashesCopied(line + rest);
    BlocksConcat(line, rest);
    CopyFirst(rest);
    assert rest[1..] == sql;
  }

  lemma LineGone(a: string, b: string)
    requires '\n' !in a && (b != "" ==> b[0] == '\n')
    ensures StripLines(DASHES + (a + b)) == " " + StripLines(b)
  {
    var t := DASHES + (a + b);
    assert t[2..] == a + b;
    SkipLineIs(a, b);
  }

  lemma LineDropped(a: string, b: string)
    requires '\n' !in a && (b != "" ==> b[0] == '\n')
    ensures Finish(DASHES + (a + b)) == Finish(b)
  {
    LineGone(a, b);
    StripIgnoresLead(" ", StripLines(b));
  }

  lemma {:induction false} SkipLineIs(a: string, b: string)
    requires '\n' !in a && (b != "" ==> b[0] == '\n')
    ensures SkipLine(a + b) == b
  {
    if a != "" {
      assert (a + b)[1..] == a[1..] + b;
      SkipLineIs(a[1..], b);
    } else {
      assert a + b == b;
    }
  }

  lemma {:induction false} NoNewNewline(s: string)
    requires '\n' !in s
    ensures '\n' !in StripBlocks(s)
    decreases |s|
  {
    if s == "" {
    } else if OpenAt(s, 0) && FindClose(s[2..]) >= 0 {
      NoNewNewline(s[2..][FindClose(s[2..]) + 2..]);
    } else {
      NoNewNewline(s[1..]);
    }
  }

  lemma NoOpenTail(c: char, r: string)
    requires !HasOpen([c] + r)
    ensures !HasOpen(r) && !(c == '/' && r != "" && r[0] == '*')
  {
    forall k ensures !OpenAt(r, k) { assert !OpenAt([c] + r, k + 1); }
    assert !OpenAt([c] + r, 0);
  }

  /** With no opening mark left over, the first pass treats line and rest separately. */
  lemma {:induction false} BlocksConcat(line: string, rest: string)
    requires !HasOpen(StripBlocks(line)) && (rest != "" ==> rest[0] != '*')
    ensures StripBlocks(line + rest) == StripBlocks(line) + StripBlocks(rest)
    decreases |line|
  {
    if line == "" {
      assert line + rest == rest;
    } else if OpenAt(line, 0) && FindClose(line[2..]) >= 0 {
      var tail := line[2..][FindClose(line[2..]) + 2..];
      CutFirst(line);
      NoOpenTail(' ', StripBlocks(tail));
      BlocksConcat(tail, rest);
      CutAppend(line, rest);
      Assoc(" ", StripBlocks(tail), StripBlocks(rest));
    } else {
      CopyFirst(line);
      NoOpenTail(line[0], StripBlocks(line[1..]));
      BlocksConcat(line[1..], rest);
      CopyAppend(line, rest);
      Assoc([line[0]], StripBlocks(line[1..]), StripBlocks(rest));
    }
  }

  lemma TailAppend(a: string, b: string)
    requires a != ""
    ensures (a + b)[1..] == a[1..] + b && (a + b)[0] == a[0]
  {}

  lemma CutAppend(line: string, rest: string)
    requires OpenAt(line, 0) && FindClose(line[2..]) >= 0
    ensures StripBlocks(line + rest)
            == " " + StripBlocks(line[2..][FindClose(line[2..]) + 2..] + rest)
  {
    var s, n := line + rest, FindClose(line[2..]) + 2;
    assert s[2..] == line[2..] + rest;
    FindPairAppend(line[2..], rest, '*', '/');
    assert s[2..][n..] == line[2..][n..] + rest;
    hide StripBlocks;
    CutFirst(s);
  }

  lemma CopyAppend(line: string, rest: string)
    requires line != "" && !(OpenAt(line, 0) && FindClose(line[2..]) >= 0)
    requires !HasOpen(StripBlocks(line)) && (rest != "" ==> rest[0] != '*')
    ensures StripBlocks(line + rest) == [line[0]] + StripBlocks(line[1..] + rest)
  {
    var s := line + rest;
    CopyFirst(line);
    NoOpenTail(line[0], StripBlocks(line[1..]));
    if OpenAt(line, 0) { UnclosedOpening(line); }
    assert !OpenAt(s, 0);
    CopyFirst(s);
    TailAppend(line, rest);
  }

  const SWALLOWED := "\n" + CLOSE + "X"

  /** The character copied in front of the output begins no opening mark of its own. */
  lemma OpenBehind(line: string, k: int)
    requires line != "" && !OpenAt(line, 0) && OpenAt([line[0]] + StripBlocks(line[1..]), k)
    ensures OpenAt(StripBlocks(line[1..]), k - 1)
  {
    assert line[1..] == "" || StripBlocks(line[1..])[0] in [' ', line[1]];
  }

  lemma SwallowsNewline(line: string)
    requires OpenAt(line, 0) && FindClose(line[2..]) < 0
    ensures '\n' !in StripBlocks(line + SWALLOWED)
  {
    var s := line + SWALLOWED;
    assert s[2..] == line[2..] + ("\n" + CLOSE) + "X";
    FindCloseIff(line[2..]);
    FirstClose(line[2..], "\n" + CLOSE, "X");
    assert s[2..][|line| + 1..] == "X";
    CutFirst(s);
    NoNewNewline("X");
  }

  /** An opening mark left over in the line swallows the newline up to the next closing mark. */
  lemma {:induction false} DanglingSwallows(line: string, k: int)
    requires '\n' !in line && OpenAt(StripBlocks(line), k)
    ensures '\n' !in StripBlocks(line + SWALLOWED)
    decreases |line|
  {
    if line == "" {
    } else if OpenAt(line, 0) && FindClose(line[2..]) >= 0 {
      hide StripBlocks;
      CutAppend(line, SWALLOWED);
      CutFirst(line);
      DanglingSwallows(line[2..][FindClose(line[2..]) + 2..], k - 1);
    } else if OpenAt(line, 0) {
      SwallowsNewline(line);
    } else {
      hide StripBlocks;
      CopyFirst(line);
      OpenBehind(line, k);
      DanglingSwallows(line[1..], k - 1);
      TailAppend(line, SWALLOWED);
      CopyFirst(line + SWALLOWED);
    }
  }

  /** A text that is one line comment ends up as nothing. */
  lemma LineCommentOnly(b: string)
    requires '\n' !in b
    ensures Finish(DASHES + b) == ""
  {
    assert b + "" == b;
    LineGone(b, "");
    assert " " + "" == " ";
    LStripIs(" ", "");
  }

  lemma CloseMarkAlone()
    ensures StripComments(CLOSE + "X") != ""
  {
    var s := CLOSE + "X";
    CopyFirst(s);
    var t := StripLines(StripBlocks(s));
    assert t[0] == '*';
    LStripNothing(t);
    RStripKeepsFirst(t);
  }

  lemma {:induction false} RStripKeepsFirst(t: string)
    requires t != "" && !IsSpace(t[0])
    ensures RStrip(t) != ""
  {
    if IsSpace(t[|t| - 1]) { RStripKeepsFirst(t[..|t| - 1]); }
  }
}
