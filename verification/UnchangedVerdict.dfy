/** Exactly which closed comments in front of a query leave the scanner's verdict alone. */
module UnchangedVerdict {
  import opened Text
  import opened SafeSelect

  /** The scanner, on this text alone, takes all of it for complete comments. */
  predicate Consumed(t: string)
    decreases |t|
  {
    if t == "" then true
    else if LineComment(t) then FindChar(t, '\n') >= 0 && Consumed(AfterLine(t))
    else if BlockComment(t) then FindPair(t, '*', '/') >= 0 && Consumed(AfterClose(t))
    else false
  }

  predicate EndsInSlash(s: string) {
    s != "" && s[|s| - 1] == '/'
  }

  /** A text that offers the scanner nothing to stop at. */
  predicate Plain(z: string) {
    forall k :: 0 <= k < |z| ==> 'a' <= z[k] <= 'z'
  }

  // ------------------------------------------------------------------ more text behind

  lemma {:induction false} LStripEnds(x: string, z: string)
    requires EndsInSlash(x)
    ensures EndsInSlash(LStrip(x)) && LStrip(x + z) == LStrip(x) + z
  {
    if IsSpace(x[0]) {
      assert (x + z)[1..] == x[1..] + z;
      LStripEnds(x[1..], z);
    }
  }

  lemma {:induction false} FindCharAppend(s: string, z: string, c: char)
    ensures FindChar(s, c) >= 0 ==> FindChar(s + z, c) == FindChar(s, c) && s[FindChar(s, c)] == c
    ensures FindChar(s, c) < 0 && c !in z ==> FindChar(s + z, c) < 0
  {
    if s == "" {
      assert s + z == z;
      if c !in z { FindCharNone(z, c); }
    } else if s[0] != c {
      assert (s + z)[1..] == s[1..] + z;
      FindCharAppend(s[1..], z, c);
    }
  }

  lemma NoNewPair(s: string, z: string)
    requires EndsInSlash(s) && Plain(z) && FindPair(s, '*', '/') < 0
    ensures FindPair(s + z, '*', '/') < 0
  {
    var r := FindPair(s + z, '*', '/');
    FindPairLeast(s, '*', '/', r);
    assert forall k :: 0 <= k < |s| ==> (s + z)[k] == s[k];
  }

  lemma BeginsSame(u: string, z: string, word: string)
    requires EndsInSlash(u) && '/' !in word
    ensures Begins(u + z, word) <==> Begins(u, word)
  {
    var n := |u| - 1;
    assert (u + z)[n] == '/' && LowerChar('/') == '/';
    assert n < |word| ==> word[n] in word;
    assert |word| <= n ==> forall k :: 0 <= k < |word| ==> (u + z)[k] == u[k];
  }

  lemma SameOptionWord(u: string, z: string)
    requires EndsInSlash(u)
    ensures OptionWord(u + z) <==> OptionWord(u)
  {
    hide Begins;
    BeginsSame(u, z, "analyze");
    BeginsSame(u, z, "verbose");
    BeginsSame(u, z, "buffers");
    BeginsSame(u, z, "costs");
    BeginsSame(u, z, "timing");
    BeginsSame(u, z, "summary");
    BeginsSame(u, z, "format");
  }

  lemma SameQuery(u: string, z: string)
    requires EndsInSlash(u)
    ensures IsQuery(u + z) <==> IsQuery(u)
  {
    hide Begins;
    BeginsSame(u, z, "select");
    BeginsSame(u, z, "with ");
  }

  /** A step of the scanner on u and on u + z: both texts vanish, or z stays behind. */
  ghost predicate KeepsTail(a: string, b: string, z: string) {
    (a == "" && b == "") || (EndsInSlash(a) && b == a + z)
  }

  lemma WordKeepsTail(u: string, z: string)
    requires EndsInSlash(u) && Plain(z)
    ensures KeepsTail(AfterWord(u), AfterWord(u + z), z)
  {
    hide FindChar, LStrip, AfterWord;
    AfterWordIs(u);
    AfterWordIs(u + z);
    var sp := FindChar(u, ' ');
    FindCharAppend(u, z, ' ');
    if sp >= 0 {
      assert (u + z)[sp + 1..] == u[sp + 1..] + z;
      LStripEnds(u[sp + 1..], z);
    }
  }

  lemma {:induction false} WordsKeepTail(u: string, z: string)
    requires EndsInSlash(u) && Plain(z)
    ensures KeepsTail(SkipWords(u), SkipWords(u + z), z)
    decreases |u|
  {
    hide OptionWord, AfterWord;
    SameOptionWord(u, z);
    WordKeepsTail(u, z);
    if OptionWord(u) {
      if AfterWord(u) == "" { NothingLeft(); } else { WordsKeepTail(AfterWord(u), z); }
    }
  }

  lemma {:induction false} NoParen(s: string, i: nat, depth: int)
    requires forall k :: i <= k < |s| ==> s[k] != ')'
    ensures CloseParen(s, i, depth) == -1
    decreases |s| - i
  {
    if i < |s| { NoParen(s, i + 1, if s[i] == '(' then depth + 1 else depth); }
  }

  lemma {:induction false} ParenAppend(u: string, z: string, i: nat, depth: int)
    requires Plain(z) && i <= |u|
    ensures CloseParen(u + z, i, depth) == CloseParen(u, i, depth)
    ensures CloseParen(u, i, depth) >= 0 ==> u[CloseParen(u, i, depth)] == ')'
    decreases |u| - i
  {
    if i == |u| {
      NoParen(u + z, i, depth);
    } else {
      assert (u + z)[i] == u[i];
      ParenAppend(u, z, i + 1, if u[i] == '(' then depth + 1 else if u[i] == ')' then depth - 1 else depth);
    }
  }

  lemma OptionsKeepTail(u: string, z: string)
    requires EndsInSlash(u) && Plain(z)
    ensures EndsInSlash(SkipOptions(u)) && SkipOptions(u + z) == SkipOptions(u) + z
  {
    hide CloseParen, LStrip;
    assert (u + z)[0] == u[0];
    ParenAppend(u, z, 0, 0);
    var i := CloseParen(u, 0, 0);
    if u[0] == '(' && i >= 0 {
      assert (u + z)[i + 1..] == u[i + 1..] + z;
      LStripEnds(u[i + 1..], z);
    }
  }

  /** What a scan leaves of u + z is judged like what it leaves of u. */
  lemma SameVerdict(u: string, z: string, a: string, b: string)
    requires EndsInSlash(u) && Plain(z) && a == Unwrap(u) && b == Unwrap(u + z)
    ensures IsQuery(b) <==> IsQuery(a)
  {
    hide SkipWords, SkipOptions, IsQuery;
    BeginsSame(u, z, "explain");
    if Begins(u, "explain") {
      assert LowerChar(u[6]) == 'n';
      assert (u + z)[7..] == u[7..] + z;
      LStripEnds(u[7..], z);
      var t := LStrip(u[7..]);
      OptionsKeepTail(t, z);
      var o := SkipOptions(t);
      WordsKeepTail(o, z);
      if SkipWords(o) != "" { SameQuery(SkipWords(o), z); }
    } else {
      SameQuery(u, z);
    }
  }

  // ------------------------------------------------------------------ the comments themselves

  lemma LineCutKeeps(t: string, r: string)
    requires EndsInSlash(t) && FindChar(t, '\n') >= 0
    ensures EndsInSlash(AfterLine(t)) && AfterLine(t + r) == AfterLine(t) + r
  {
    hide FindChar, LStrip, AfterLine;
    AfterLineIs(t);
    AfterLineIs(t + r);
    var nl := FindChar(t, '\n');
    FindCharAppend(t, r, '\n');
    assert (t + r)[nl + 1..] == t[nl + 1..] + r;
    LStripEnds(t[nl + 1..], r);
  }

  lemma CloseCutKeeps(t: string, r: string)
    requires EndsInSlash(t) && FindPair(t, '*', '/') >= 0
    ensures if AfterClose(t) == "" then AfterClose(t + r) == LStrip(r)
            else EndsInSlash(AfterClose(t)) && AfterClose(t + r) == AfterClose(t) + r
  {
    hide FindPair, LStrip, AfterClose;
    AfterCloseIs(t);
    AfterCloseIs(t + r);
    var cl := FindPair(t, '*', '/');
    FindPairAppend(t, r, '*', '/');
    var x := t[cl + 2..];
    assert (t + r)[cl + 2..] == x + r;
    if x == "" {
      LStripNothing("");
      assert x + r == r;
    } else {
      assert x[|x| - 1] == t[|t| - 1];
      LStripEnds(x, r);
    }
  }

  lemma {:induction false} ConsumedIsSkipped(t: string, r: string)
    requires EndsInSlash(t) && Consumed(t)
    ensures SkipComments(t + r) == SkipComments(LStrip(r))
    decreases |t|
  {
    assert (t + r)[0] == t[0] && (t + r)[1] == t[1];
    hide FindChar, FindPair, AfterLine, AfterClose;
    if LineComment(t) {
      LineCutKeeps(t, r);
      ConsumedIsSkipped(AfterLine(t), r);
    } else {
      CloseCutKeeps(t, r);
      if AfterClose(t) != "" { ConsumedIsSkipped(AfterClose(t), r); }
    }
  }

  lemma LineKeepsTail(t: string, z: string)
    requires EndsInSlash(t) && Plain(z)
    ensures KeepsTail(AfterLine(t), AfterLine(t + z), z)
    ensures FindChar(t, '\n') >= 0 <==> AfterLine(t) != ""
  {
    hide FindChar, AfterLine;
    AfterLineIs(t);
    AfterLineIs(t + z);
    FindCharAppend(t, z, '\n');
    if FindChar(t, '\n') >= 0 { LineCutKeeps(t, z); }
  }

  lemma CloseKeepsTail(t: string, z: string)
    requires EndsInSlash(t) && Plain(z)
    ensures FindPair(t, '*', '/') < 0 || AfterClose(t) != "" ==> KeepsTail(AfterClose(t), AfterClose(t + z), z)
    ensures FindPair(t, '*', '/') < 0 ==> AfterClose(t) == ""
  {
    hide FindPair, AfterClose;
    AfterCloseIs(t);
    AfterCloseIs(t + z);
    if FindPair(t, '*', '/') >= 0 { CloseCutKeeps(t, z); } else { NoNewPair(t, z); }
  }

  lemma {:induction false} LeftoverKeepsTail(t: string, z: string)
    requires EndsInSlash(t) && Plain(z) && !Consumed(t)
    ensures KeepsTail(SkipComments(t), SkipComments(t + z), z)
    decreases |t|
  {
    hide FindChar, FindPair, AfterLine, AfterClose;
    SameOpening(t, z);
    NothingLeft();
    assert Consumed("");
    if LineComment(t) {
      LineKeepsTail(t, z);
      TailStep(t, z, AfterLine(t), AfterLine(t + z));
      if AfterLine(t) != "" && !Consumed(AfterLine(t)) { LeftoverKeepsTail(AfterLine(t), z); }
    } else if BlockComment(t) {
      CloseKeepsTail(t, z);
      TailStep(t, z, AfterClose(t), AfterClose(t + z));
      if AfterClose(t) != "" && !Consumed(AfterClose(t)) { LeftoverKeepsTail(AfterClose(t), z); }
    }
  }

  lemma TailStep(t: string, z: string, a: string, b: string)
    requires (LineComment(t) && a == AfterLine(t) && b == AfterLine(t + z) && LineComment(t + z))
             || (!LineComment(t) && BlockComment(t) && a == AfterClose(t) && b == AfterClose(t + z)
                 && BlockComment(t + z) && !LineComment(t + z))
    ensures SkipComments(t) == SkipComments(a) && SkipComments(t + z) == SkipComments(b)
  {}

  lemma SameOpening(t: string, z: string)
    requires EndsInSlash(t) && Plain(z)
    ensures LineComment(t + z) <==> LineComment(t)
    ensures BlockComment(t + z) <==> BlockComment(t)
  {
    assert (t + z)[0] == t[0];
    assert |t| >= 2 ==> (t + z)[1] == t[1];
    assert |t| == 1 && |z| >= 1 ==> (t + z)[1] == z[0];
  }

  lemma PrefixedTrim(c: string, sql: string)
    requires EndsInSlash(c) && !IsSpace(c[0])
    ensures Trim(c + sql) == c + RTrim(sql)
    ensures Judged(c + sql) == Unwrap(SkipComments(c + RTrim(sql)))
  {
    hide Unwrap, SkipComments;
    RTrimAppend(c, sql);
    LStripNothing(c + sql);
    LStripNothing(c + RTrim(sql));
  }

  lemma TrimSelect()
    ensures Trim("") == RTrim("") == "" && Trim("select") == RTrim("select") == "select"
    ensures !IsQuery(Judged("")) && IsQuery(Judged("select"))
  {
    assert !IsSpace("select"[0]) && !IsSpace("select"[5]);
    assert LStrip("select") == "select" && RTrim("select") == "select";
    assert SkipComments("select") == "select" && SkipComments("") == "";
  }

  /** A closed comment in front preserves every verdict exactly if the scanner takes all of it
      for comments. That fails only for bodies that begin with a slash, and not for all of those. */
  lemma ClosedCommentInFront(body: string)
    requires FindPair(body, '*', '/') < 0
    ensures var c := "/*" + body + "*/";
            (forall sql :: IsQuery(Judged(c + sql)) == IsQuery(Judged(sql))) <==> Consumed(c)
    ensures body == "" || body[0] != '/' ==> Consumed("/*" + body + "*/")
  {
    hide IsQuery, Judged, Consumed;
    var c := "/*" + body + "*/";
    if Consumed(c) {
      forall sql ensures IsQuery(Judged(c + sql)) == IsQuery(Judged(sql)) { ConsumedInFront(c, sql); }
    } else {
      hide Unwrap, SkipComments, Trim, RTrim, RStrip, RStripChar;
      TrimSelect();
      PrefixedTrim(c, "select");
      PrefixedTrim(c, "");
      Indifferent(c);
      assert c + "" == c;
      assert IsQuery(Judged(c + "select")) == IsQuery(Judged(c + ""));
    }
    CleanBody(body);
  }

  /** A closed comment that is not consumed: its first three characters are taken for all of it,
      and no query behind it is accepted. */
  lemma SlashInFront(sql: string)
    ensures !Consumed("/*/ */") && IsQuery(Judged("select"))
    ensures !IsQuery(Judged("/*/ */" + sql))
  {
    TrimSelect();
    FirstCut("");
    FirstCut(RTrim(sql));
    PrefixedTrim("/*/ */", sql);
    assert "/*/ */" + "" == "/*/ */" && "*/" + "" == "*/";
    CloseMarkStays(RTrim(sql));
  }

  lemma FirstCut(r: string)
    ensures var s := "/*/ */" + r;
            BlockComment(s) && !LineComment(s) && FindPair(s, '*', '/') == 1 && AfterClose(s) == "*/" + r
  {
    var s := "/*/ */" + r;
    FindPairLeast(s, '*', '/', 1);
    AfterCloseIs(s);
    assert s[3..] == " " + ("*/" + r);
    LStripIs(" ", "*/" + r);
  }

  lemma CloseMarkStays(r: string)
    ensures Unwrap(SkipComments("*/" + r)) == "*/" + r && !IsQuery("*/" + r)
    ensures !Consumed("*/")
  {
    hide Begins;
    OtherStart("*/" + r, "select");
    OtherStart("*/" + r, "with ");
    OtherStart("*/" + r, "explain");
  }

  lemma ConsumedInFront(c: string, sql: string)
    requires EndsInSlash(c) && !IsSpace(c[0]) && Consumed(c)
    ensures Judged(c + sql) == Judged(sql)
  {
    PrefixedTrim(c, sql);
    ConsumedIsSkipped(c, RTrim(sql));
    TrimCommutes(sql);
  }

  /** A comment that is not consumed hides from the scanner whether a query follows. */
  lemma Indifferent(c: string)
    requires EndsInSlash(c) && !Consumed(c)
    ensures IsQuery(Unwrap(SkipComments(c + "select"))) == IsQuery(Unwrap(SkipComments(c)))
  {
    LeftoverKeepsTail(c, "select");
    hide IsQuery, Unwrap, SkipComments;
    var u := SkipComments(c);
    if u != "" { SameVerdict(u, "select", Unwrap(u), Unwrap(u + "select")); }
  }

  lemma CleanBody(body: string)
    requires FindPair(body, '*', '/') < 0
    ensures body == "" || body[0] != '/' ==> Consumed("/*" + body + "*/")
  {
    var c := "/*" + body + "*/";
    CutIsExact(body, "");
    assert c + "" == c;
    FindPairLeast(c, '*', '/', |body| + 2);
    LStripNothing("");
    assert BlockComment(c) && !LineComment(c);
  }
}
