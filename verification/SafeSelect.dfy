/** The scanner in front of the SQL sandbox (`_is_safe_select`): it trims a query, drops
    leading comments and an EXPLAIN wrapper, and looks at what the remaining text begins with. */
module SafeSelect {
  import opened Text

  /** The right end of `sql.strip().rstrip(";")`. */
  function RTrim(s: string): string {
    RStripChar(RStrip(s), ';')
  }

  function Trim(sql: string): string {
    LStrip(RTrim(LStrip(sql)))
  }

  predicate LineComment(s: string) { PairAt(s, '-', '-', 0) }
  predicate BlockComment(s: string) { PairAt(s, '/', '*', 0) }

  /** Leading comments: to the end of the line, or to the first closing mark of the text,
      which is looked for from the opening mark itself on. */
  function SkipComments(s: string): (r: string)
    decreases |s|
  {
    if LineComment(s) then SkipComments(AfterLine(s))
    else if BlockComment(s) then SkipComments(AfterClose(s))
    else s
  }

  function AfterLine(s: string): (r: string)
    ensures s != "" ==> |r| < |s|
  {
    LStrip(Behind(s, '\n'))
  }

  function AfterClose(s: string): (r: string)
    ensures s != "" ==> |r| < |s|
  {
    LStrip(BehindPair(s, '*', '/'))
  }

  /** Where the parenthesis depth first returns to zero, scanning from i, or -1. */
  function CloseParen(s: string, i: nat, depth: int): (r: int)
    ensures r == -1 || i <= r < |s|
    decreases |s| - i
  {
    if i >= |s| then -1
    else if s[i] == '(' then CloseParen(s, i + 1, depth + 1)
    else if s[i] == ')' then (if depth == 1 then i else CloseParen(s, i + 1, depth - 1))
    else CloseParen(s, i + 1, depth)
  }

  /** Options in parentheses; an unclosed parenthesis is left as it is. */
  function SkipOptions(s: string): string {
    var i := if s != "" && s[0] == '(' then CloseParen(s, 0, 0) else -1;
    if i >= 0 then LStrip(s[i + 1..]) else s
  }

  predicate OptionWord(s: string) {
    Begins(s, "analyze") || Begins(s, "verbose") || Begins(s, "buffers") || Begins(s, "costs")
    || Begins(s, "timing") || Begins(s, "summary") || Begins(s, "format")
  }

  /** Option words without parentheses: each is dropped up to the next blank. */
  function SkipWords(s: string): string
    decreases |s|
  {
    if !OptionWord(s) then s else SkipWords(AfterWord(s))
  }

  function AfterWord(s: string): (r: string)
    ensures s != "" ==> |r| < |s|
  {
    LStrip(Behind(s, ' '))
  }

  function Unwrap(s: string): string {
    if Begins(s, "explain") then SkipWords(SkipOptions(LStrip(s[7..]))) else s
  }

  /** `s[:6].lower()` begins with `select` or `with `. */
  predicate IsQuery(s: string) {
    Begins(s, "select") || Begins(s, "with ")
  }

  /** The text that is finally judged. */
  function Judged(sql: string): string {
    Unwrap(SkipComments(Trim(sql)))
  }

  // ------------------------------------------------------------------ the scanner

  /** A text spelled like a word or a phrase in lower case, letter by letter in either case. */
  predicate Spelled(s: string, word: string) {
    |s| == |word| && forall k :: 0 <= k < |word| ==>
      s[k] == word[k] || ('a' <= word[k] <= 'z' && s[k] as int + 32 == word[k] as int)
  }

  predicate StartsAs(s: string, word: string) {
    |word| <= |s| && Spelled(s[..|word|], word)
  }

  lemma BeginsIs(s: string, word: string)
    requires forall k :: 0 <= k < |word| ==> 'a' <= word[k] <= 'z' || word[k] == ' '
    ensures Begins(s, word) <==> StartsAs(s, word)
  {}

  /** The verdict on every text; where neither a comment nor EXPLAIN is in front, it is whether the
      trimmed text starts with `select` or with `with` and a blank, in either case of letters. */
  method IsSafeSelect(sql: string) returns (safe: bool)
    ensures safe == IsQuery(Judged(sql))
    ensures var t := Trim(sql);
      !StartsWith(t, "--") && !StartsWith(t, "/*") && !StartsAs(t, "explain") ==>
        (safe <==> StartsAs(t, "select") || StartsAs(t, "with "))
  {
    PlainVerdict(sql);
    var s := LStrip(RStripChar(RStrip(LStrip(sql)), ';'));
    s := DropComments(s);
    if Begins(s, "explain") {
      s := LStrip(s[7..]);
      if s != "" && s[0] == '(' {
        s := DropOptions(s);
      }
      s := DropWords(s);
    }
    return IsQuery(s);
  }

  lemma PlainVerdict(sql: string)
    ensures var t := Trim(sql);
      !StartsWith(t, "--") && !StartsWith(t, "/*") && !StartsAs(t, "explain") ==>
        (IsQuery(Judged(sql)) <==> StartsAs(t, "select") || StartsAs(t, "with "))
  {
    var t := Trim(sql);
    BeginsIs(t, "explain");
    BeginsIs(t, "select");
    BeginsIs(t, "with ");
    hide Begins, StartsAs, Trim;
    if LineComment(t) { assert t[..2] == "--"; }
    if BlockComment(t) { assert t[..2] == "/*"; }
  }

  method DropComments(text: string) returns (s: string)
    ensures s == SkipComments(text)
  {
    s := text;
    while LineComment(s) || BlockComment(s)
      invariant SkipComments(s) == SkipComments(text)
      decreases |s|
    {
      BehindIs(s, '\n');
      BehindPairIs(s, '*', '/');
      if LineComment(s) {
        var nl := FindChar(s, '\n');
        s := if nl != -1 then LStrip(s[nl + 1..]) else "";
      } else {
        var cl := FindPair(s, '*', '/');
        s := if cl != -1 then LStrip(s[cl + 2..]) else "";
      }
    }
  }

  method DropOptions(text: string) returns (s: string)
    requires text != "" && text[0] == '('
    ensures s == SkipOptions(text)
  {
    hide LStrip;
    var paren, i := 0, 0;
    ghost var close := CloseParen(text, 0, 0);
    while i < |text|
      invariant 0 <= i <= |text| && close == CloseParen(text, i, paren)
    {
      if text[i] == '(' {
        paren := paren + 1;
      } else if text[i] == ')' {
        paren := paren - 1;
        if paren == 0 {
          return LStrip(text[i + 1..]);
        }
      }
      i := i + 1;
    }
    return text;
  }

  method DropWords(text: string) returns (s: string)
    ensures s == SkipWords(text)
  {
    s := text;
    while OptionWord(s)
      invariant SkipWords(s) == SkipWords(text)
      decreases |s|
    {
      BehindIs(s, ' ');
      var sp := FindChar(s, ' ');
      if sp == -1 {
        return "";
      }
      s := LStrip(s[sp + 1..]);
    }
  }

  // ------------------------------------------------------------------ trimming

  predicate Solid(c: char) { !IsSpace(c) && c != ';' }

  lemma RStripAppend(a: string, b: string)
    requires a != "" && (RStrip(b) == "" ==> !IsSpace(a[|a| - 1]))
    ensures RStrip(a + b) == a + RStrip(b)
  {
    hide RStrip, IsSpace, Blank;
    var r := RStrip(b);
    var w := RStripFacts(b);
    Assoc(a, r, w);
    assert (a + r)[|a + r| - 1] == if r == "" then a[|a| - 1] else r[|r| - 1];
    RStripIs(a + r, w);
  }

  lemma SemicolonsAppend(a: string, r: string)
    requires a != "" && a[|a| - 1] != ';'
    ensures RStripChar(a + r, ';') == a + RStripChar(r, ';')
  {
    hide RStripChar, Only;
    var t := RStripChar(r, ';');
    var v := RStripCharFacts(r, ';');
    Assoc(a, t, v);
    assert (a + t)[|a + t| - 1] == if t == "" then a[|a| - 1] else t[|t| - 1];
    RStripCharIs(a + t, v, ';');
  }

  lemma RTrimParts(a: string, b: string)
    requires a != "" && a[|a| - 1] != ';' && (RStrip(b) == "" ==> !IsSpace(a[|a| - 1]))
    ensures RTrim(a + b) == a + RTrim(b)
  {
    hide RStrip, RStripChar, IsSpace;
    RStripAppend(a, b);
    SemicolonsAppend(a, RStrip(b));
  }

  /** Trimming on the right never reaches past a character that is neither blank nor `;`. */
  lemma RTrimAppend(a: string, b: string)
    requires a != "" && Solid(a[|a| - 1])
    ensures RTrim(a + b) == a + RTrim(b)
  {
    RTrimParts(a, b);
  }

  /** Behind a line break the same holds as soon as anything but blanks follows. */
  lemma RTrimLine(a: string, b: string)
    requires a != "" && a[|a| - 1] != ';' && RStrip(b) != ""
    ensures RTrim(a + b) == a + RTrim(b)
  {
    RTrimParts(a, b);
  }

  /** Trimming left and right can be done in either order. */
  lemma {:induction false} TrimCommutes(s: string)
    ensures LStrip(RTrim(s)) == Trim(s)
  {
    if s != "" && IsSpace(s[0]) {
      TrimCommutes(s[1..]);
      LeadingBlank(s[0], s[1..]);
      assert [s[0]] + s[1..] == s;
    }
  }

  lemma LeadingBlank(c: char, t: string)
    requires IsSpace(c)
    ensures LStrip(RTrim([c] + t)) == LStrip(RTrim(t))
  {
    if RStrip(t) != "" {
      RTrimLine([c], t);
      assert ([c] + RTrim(t))[1..] == RTrim(t);
    } else {
      var w := RStripFacts(t);
      assert [c] + t == "" + ([c] + w);
      RStripIs("", [c] + w);
    }
  }

  // ------------------------------------------------------------------ what is judged

  lemma AfterCut(s: string, n: nat, r: string) returns (p: string)
    requires n <= |s| && r == LStrip(s[n..])
    ensures s == p + r
  {
    var w := LStripFacts(s[n..]);
    p := s[..n] + w;
  }

  lemma AfterLineIs(s: string)
    ensures AfterLine(s) == if FindChar(s, '\n') >= 0 then LStrip(s[FindChar(s, '\n') + 1..]) else ""
  {
    BehindIs(s, '\n');
  }

  lemma AfterWordIs(s: string)
    ensures AfterWord(s) == if FindChar(s, ' ') >= 0 then LStrip(s[FindChar(s, ' ') + 1..]) else ""
  {
    BehindIs(s, ' ');
  }

  lemma AfterCloseIs(s: string)
    ensures AfterClose(s) == if FindPair(s, '*', '/') >= 0 then LStrip(s[FindPair(s, '*', '/') + 2..]) else ""
  {
    BehindPairIs(s, '*', '/');
  }

  lemma LineCutOff(s: string) returns (p: string)
    ensures s == p + AfterLine(s)
  {
    AfterLineIs(s);
    hide AfterLine, LStrip, FindChar;
    p := s;
    if FindChar(s, '\n') >= 0 { p := AfterCut(s, FindChar(s, '\n') + 1, AfterLine(s)); }
  }

  lemma BlockCutOff(s: string) returns (p: string)
    ensures s == p + AfterClose(s)
  {
    AfterCloseIs(s);
    hide AfterClose, LStrip, FindPair;
    p := s;
    if FindPair(s, '*', '/') >= 0 { p := AfterCut(s, FindPair(s, '*', '/') + 2, AfterClose(s)); }
  }

  lemma {:induction false} SkipCommentsSuffix(s: string) returns (p: string)
    ensures s == p + SkipComments(s)
    decreases |s|
  {
    p := "";
    hide AfterLine, AfterClose;
    if LineComment(s) {
      var a := LineCutOff(s);
      var b := SkipCommentsSuffix(AfterLine(s));
      p := a + b;
      Assoc(a, b, SkipComments(s));
    } else if BlockComment(s) {
      var a := BlockCutOff(s);
      var b := SkipCommentsSuffix(AfterClose(s));
      p := a + b;
      Assoc(a, b, SkipComments(s));
    }
  }

  lemma WordCut(s: string) returns (p: string)
    ensures s == p + AfterWord(s)
  {
    AfterWordIs(s);
    hide AfterWord, LStrip, FindChar;
    p := s;
    if FindChar(s, ' ') >= 0 { p := AfterCut(s, FindChar(s, ' ') + 1, AfterWord(s)); }
  }

  lemma {:induction false} SkipWordsSuffix(s: string) returns (p: string)
    ensures s == p + SkipWords(s)
    decreases |s|
  {
    hide AfterWord, OptionWord;
    p := "";
    if OptionWord(s) {
      SkipWord(s);
      var a := WordCut(s);
      var b := SkipWordsSuffix(AfterWord(s));
      p := a + b;
      Assoc(a, b, SkipWords(s));
    }
  }

  lemma SkipWord(s: string)
    requires OptionWord(s)
    ensures SkipWords(s) == SkipWords(AfterWord(s)) && |AfterWord(s)| < |s|
  {}

  lemma OptionsSuffix(t: string) returns (p: string)
    ensures t == p + SkipOptions(t)
  {
    p := "";
    var i := if t != "" && t[0] == '(' then CloseParen(t, 0, 0) else -1;
    if i >= 0 { p := AfterCut(t, i + 1, SkipOptions(t)); }
  }

  lemma UnwrapSuffix(s: string) returns (p: string)
    ensures s == p + Unwrap(s)
  {
    p := "";
    if Begins(s, "explain") {
      var t := LStrip(s[7..]);
      var a := AfterCut(s, 7, t);
      var b := OptionsSuffix(t);
      var c := SkipWordsSuffix(SkipOptions(t));
      p := a + (b + c);
      Assoc(b, c, Unwrap(s));
      Assoc(a, b + c, Unwrap(s));
    }
  }

  /** Trimming takes off the white space on the left, and on the right white space and then
      semicolons: all of them, and nothing else. */
  lemma TrimIs(sql: string) returns (front: string, semicolons: string, blanks: string)
    ensures sql == front + Trim(sql) + (semicolons + blanks)
    ensures Blank(front) && Only(semicolons, ';') && Blank(blanks)
    ensures var t := Trim(sql);
      t != "" ==> !IsSpace(t[0]) && t[|t| - 1] != ';' && (semicolons == "" ==> !IsSpace(t[|t| - 1]))
  {
    var l := LStrip(sql);
    var a := LStripFacts(sql);
    blanks := RStripFacts(l);
    semicolons := RStripCharFacts(RStrip(l), ';');
    var b := LStripFacts(RTrim(l));
    hide LStrip, RStrip, RStripChar;
    front := a + b;
    var t := Trim(sql);
    TrimmedParts(a, b, t, semicolons, blanks);
    assert t != "" ==> (b + t)[|b + t| - 1] == t[|t| - 1];
    assert semicolons == "" ==> RStrip(l) == RTrim(l) + "" == RTrim(l);
  }

  /** The judged text is a suffix of the trimmed query. */
  lemma JudgedIsSuffix(sql: string) returns (front: string, mid: string, back: string)
    ensures Trim(sql) == mid + Judged(sql)
    ensures sql == front + Trim(sql) + back && sql == front + mid + Judged(sql) + back
    ensures Blank(front) && forall k :: 0 <= k < |back| ==> IsSpace(back[k]) || back[k] == ';'
  {
    var v, w;
    front, v, w := TrimIs(sql);
    hide Trim, SkipComments, Unwrap;
    back := v + w;
    var c := SkipCommentsSuffix(Trim(sql));
    var d := UnwrapSuffix(SkipComments(Trim(sql)));
    mid := c + d;
    Assoc(c, d, Judged(sql));
    Assoc(front, mid, Judged(sql));
  }

  lemma TrimmedParts(a: string, b: string, t: string, v: string, w: string)
    ensures a + ((b + t) + v + w) == (a + b) + t + (v + w)
  {}

  // ------------------------------------------------------------------ comments in front

  /** The first cut after a block comment ends where the comment ends, for every text behind
      it, exactly when the body of the comment does not begin with a slash. */
  lemma {:induction false} CutIsExact(body: string, sql: string)
    requires FindPair(body, '*', '/') < 0
    ensures AfterClose("/*" + body + "*/" + sql) == LStrip(sql) <==> body == "" || body[0] != '/'
  {
    var s := "/*" + body + "*/" + sql;
    var n := |body| + 2;
    FindPairLeast(s, '*', '/', n);
    FindPairLeast(s, '*', '/', 1);
    var cl := FindPair(s, '*', '/');
    BehindPairIs(s, '*', '/');
    FindPairLeast(body, '*', '/', cl - 2);
    assert s[n + 2..] == sql;
    if body != "" && body[0] == '/' {
      assert s[2] == body[0];
      assert cl == 1;
      assert s[3..] == body[1..] + ("*/" + sql);
      LongerTail(body[1..], sql);
    } else {
      assert body != "" ==> s[2] == body[0];
      BeforeClose(body, sql, cl);
    }
  }

  lemma BeforeClose(body: string, sql: string, k: int)
    requires FindPair(body, '*', '/') < 0 && (body == "" || body[0] != '/')
    requires PairAt("/*" + body + "*/" + sql, '*', '/', k) && k <= |body| + 2
    ensures k == |body| + 2
  {
    var s := "/*" + body + "*/" + sql;
    FindPairLeast(body, '*', '/', k - 2);
    assert forall i :: 0 <= i < |body| ==> s[i + 2] == body[i];
  }

  /** Left-stripping a text that ends in a closing mark and sql leaves more than sql. */
  lemma {:induction false} LongerTail(a: string, sql: string)
    ensures |LStrip(a + ("*/" + sql))| > |sql|
    ensures LStrip(a + ("*/" + sql)) != LStrip(sql)
  {
    if a == "" {
      assert a + ("*/" + sql) == "*/" + sql;
      LStripNothing("*/" + sql);
    } else {
      assert (a + ("*/" + sql))[1..] == a[1..] + ("*/" + sql);
      LongerTail(a[1..], sql);
    }
  }

  /** A comment that is cut exactly, in front of any query, never changes what is judged. */
  lemma CommentInFront(c: string, sql: string, t: string)
    requires |c| >= 2 && !IsSpace(c[0])
    requires RTrim(c + sql) == c + RTrim(sql)
    requires t == c + RTrim(sql)
    requires (LineComment(t) && AfterLine(t) == LStrip(RTrim(sql)))
             || (BlockComment(t) && AfterClose(t) == LStrip(RTrim(sql)))
    ensures Judged(c + sql) == Judged(sql)
  {
    LStripNothing(c + sql);
    LStripNothing(t);
    TrimCommutes(sql);
    SkipStep(t, Trim(sql));
  }

  lemma SkipStep(t: string, r: string)
    requires (LineComment(t) && AfterLine(t) == r) || (BlockComment(t) && AfterClose(t) == r)
    ensures SkipComments(t) == SkipComments(r)
  {}

  /** A line comment in front never changes the verdict. */
  lemma LineCommentInFront(line: string, sql: string)
    requires '\n' !in line
    ensures IsQuery(Judged("--" + line + "\n" + sql)) == IsQuery(Judged(sql))
  {
    var c := "--" + line + "\n";
    if RStrip(sql) == "" {
      var t := BlankBehindLine(line, sql);
      FindCharNone(t, '\n');
      AfterLineIs(t);
      SkipStep(t, "");
      BlankTrims(sql);
    } else {
      RTrimLine(c, sql);
      LineCut(line, RTrim(sql));
      CommentInFront(c, sql, c + RTrim(sql));
    }
  }

  lemma LineCut(line: string, r: string)
    requires '\n' !in line
    ensures AfterLine("--" + line + "\n" + r) == LStrip(r)
  {
    var s := "--" + line + "\n" + r;
    var n := |line| + 2;
    assert s[..n] == "--" + line;
    assert s[n + 1..] == r;
    FindCharIs(s, '\n', n);
    BehindIs(s, '\n');
  }

  lemma BlankBehindLine(line: string, sql: string) returns (t: string)
    requires '\n' !in line && RStrip(sql) == ""
    ensures t == Trim("--" + line + "\n" + sql) && LineComment(t) && '\n' !in t
  {
    var d := "--" + line;
    var w := RStripFacts(sql);
    Assoc(d, "\n", sql);
    RTrimBlank(d, "\n" + sql);
    var v := RStripFacts(d);
    var x := RStripCharFacts(RStrip(d), ';');
    t := RTrim(d);
    KeepsDashes(d, RStrip(d), v);
    KeepsDashes(RStrip(d), t, x);
    Assoc(t, x, v);
    LStripNothing(d + ("\n" + sql));
    LStripNothing(t);
    forall k | 0 <= k < |t| ensures t[k] != '\n' { assert t[k] == d[k]; }
  }

  lemma RTrimBlank(d: string, w: string)
    requires Blank(w)
    ensures RTrim(d + w) == RTrim(d)
  {
    var v := RStripFacts(d);
    Assoc(RStrip(d), v, w);
    RStripIs(RStrip(d), v + w);
  }

  lemma KeepsDashes(s: string, r: string, w: string)
    requires s == r + w && PairAt(s, '-', '-', 0) && forall k :: 0 <= k < |w| ==> w[k] != '-'
    ensures PairAt(r, '-', '-', 0)
  {
    assert forall k :: 0 <= k < |w| ==> s[|r| + k] == w[k];
  }

  lemma BlankTrims(sql: string)
    requires RStrip(sql) == ""
    ensures Trim(sql) == ""
  {
    var w := RStripFacts(sql);
    assert w + "" == sql;
    LStripIs(w, "");
  }

  // ------------------------------------------------------------------ EXPLAIN

  /** Parentheses that pair up, starting at depth d. */
  predicate Balanced(s: string, d: nat) {
    if s == "" then d == 0
    else if s[0] == '(' then Balanced(s[1..], d + 1)
    else if s[0] == ')' then d > 0 && Balanced(s[1..], d - 1)
    else Balanced(s[1..], d)
  }

  lemma {:induction false} BalancedClose(pre: string, opts: string, rest: string, d: nat)
    requires Balanced(opts, d)
    ensures CloseParen(pre + opts + ")" + rest, |pre|, d + 1) == |pre| + |opts|
    decreases |opts|
  {
    var s := pre + opts + ")" + rest;
    if opts == "" {
      assert s[|pre|] == ')';
    } else {
      assert s[|pre|] == opts[0];
      assert s == (pre + [opts[0]]) + opts[1..] + ")" + rest;
      BalancedClose(pre + [opts[0]], opts[1..], rest,
                    if opts[0] == '(' then d + 1 else if opts[0] == ')' then d - 1 else d);
    }
  }

  /** `EXPLAIN` in any letter case, and white space or none behind it. */
  predicate ExplainStart(h: string) {
    Begins(h, "explain") && Blank(h[7..])
  }

  /** Wrapping a query in EXPLAIN and options in parentheses makes the scanner judge the trimmed
      query itself, less any option words, whatever the query is. */
  lemma ExplainWrapper(h: string, opts: string, sql: string)
    requires ExplainStart(h) && Balanced(opts, 0)
    ensures Judged(h + "(" + opts + ")" + sql) == SkipWords(Trim(sql))
  {
    hide Begins, SkipComments, SkipOptions, SkipWords, Balanced, LStrip, RStrip, RStripChar;
    var w, r := h + "(" + opts + ")", RTrim(sql);
    var t := "(" + opts + ")" + r;
    assert w + r == h + t;
    ExplainHead(h, t);
    assert w[0] == h[0] && w[|w| - 1] == ')';
    LStripNothing(w + sql);
    RTrimAppend(w, sql);
    LStripNothing(w + r);
    TrimCommutes(sql);
    LStripNothing(t);
    OptionsCut(opts, r);
  }

  lemma ExplainHead(h: string, u: string)
    requires ExplainStart(h)
    ensures h != "" && !IsSpace(h[0])
    ensures SkipComments(h + u) == h + u && Begins(h + u, "explain") && LStrip((h + u)[7..]) == LStrip(u)
  {
    assert h[0] == 'e' || h[0] == 'E';
    assert (h + u)[7..] == h[7..] + u;
    BlankDropped(h[7..], u);
  }

  lemma {:induction false} BlankDropped(v: string, r: string)
    requires Blank(v)
    ensures LStrip(v + r) == LStrip(r)
  {
    if v == "" {
      assert v + r == r;
    } else {
      assert (v + r)[1..] == v[1..] + r;
      BlankDropped(v[1..], r);
    }
  }

  lemma OptionsCut(opts: string, r: string)
    requires Balanced(opts, 0)
    ensures SkipOptions("(" + opts + ")" + r) == LStrip(r)
  {
    hide CloseParen, Balanced, LStrip;
    var t := "(" + opts + ")" + r;
    BalancedClose("(", opts, r, 0);
    OpenParen(t);
    assert t[|opts| + 2..] == r;
  }

  lemma OpenParen(t: string)
    requires t != "" && t[0] == '('
    ensures CloseParen(t, 0, 0) == CloseParen(t, 1, 1)
  {}

  /** A query that begins with none of comment, EXPLAIN and option word keeps its verdict
      under any such wrapper. */
  lemma ExplainKeepsVerdict(h: string, opts: string, sql: string)
    requires ExplainStart(h) && Balanced(opts, 0)
    requires var t := Trim(sql);
      !LineComment(t) && !BlockComment(t) && !Begins(t, "explain") && !OptionWord(t)
    ensures Judged(h + "(" + opts + ")" + sql) == Judged(sql)
  {
    ExplainWrapper(h, opts, sql);
  }

  /** The scanner finds nothing to skip, and no query, in nothing. */
  lemma NothingLeft()
    ensures SkipComments("") == "" && SkipWords("") == "" && !IsQuery("")
  {}

  lemma NoWord(s: string)
    requires !OptionWord(s)
    ensures SkipWords(s) == s
  {}
}
