/** What the scanner makes of option words behind EXPLAIN: where a word ends, and what becomes
    of the value behind FORMAT. */
module OptionWords {
  import opened Text
  import opened SafeSelect

  /** Text without white space and `;`, such as a keyword. */
  predicate Word(w: string) {
    w != "" && forall k :: 0 <= k < |w| ==> Solid(w[k])
  }

  /** An option word and white space with a blank in it. */
  predicate Spaced(w: string, sep: string) {
    Word(w) && OptionWord(w) && Blank(sep) && ' ' in sep
  }

  // ------------------------------------------------------------------ where a word ends

  lemma StillOptionWord(w: string, x: string)
    requires OptionWord(w)
    ensures OptionWord(w + x)
  {}

  /** An option word ends at the first blank behind it, and nowhere else. */
  lemma WordEndsAtBlank(w: string, r: string)
    requires OptionWord(w) && ' ' !in w
    ensures SkipWords(w + " " + r) == SkipWords(LStrip(r))
  {
    var s, n := w + " " + r, |w|;
    assert s == w + (" " + r);
    StillOptionWord(w, " " + r);
    assert s[..n] == w && s[n] == ' ' && s[n + 1..] == r;
    FindCharIs(s, ' ', n);
    AfterWordIs(s);
    hide OptionWord, AfterWord;
    SkipWord(s);
  }

  lemma WordTakesAll(w: string)
    requires OptionWord(w) && ' ' !in w
    ensures SkipWords(w) == ""
  {
    FindCharNone(w, ' ');
    AfterWordIs(w);
    hide OptionWord, AfterWord;
    SkipWord(w);
    NothingLeft();
  }

  /** White space with a blank in it separates an option word from what follows; its first
      blank ends the word. */
  lemma BlankSeparates(w: string, sep: string, q: string)
    requires OptionWord(w) && ' ' !in w && Blank(sep) && ' ' in sep
    ensures SkipWords(w + sep + q) == SkipWords(LStrip(q))
  {
    var n := FirstBlank(sep);
    var a, b := sep[..n], sep[n + 1..];
    assert Blank(b) && ' ' !in w + a;
    StillOptionWord(w, a);
    hide OptionWord, SkipWords, LStrip, Blank;
    WordEndsAtBlank(w + a, b + q);
    Reassemble(w, sep, q, n);
    BlankDropped(b, q);
  }

  lemma Reassemble(w: string, sep: string, q: string, n: nat)
    requires n < |sep| && sep[n] == ' '
    ensures w + sep + q == (w + sep[..n]) + " " + (sep[n + 1..] + q)
  {}

  lemma {:induction false} FirstBlank(s: string) returns (n: nat)
    requires ' ' in s
    ensures n < |s| && s[n] == ' ' && ' ' !in s[..n]
  {
    if s[0] == ' ' {
      n := 0;
    } else {
      var m := FirstBlank(s[1..]);
      n := m + 1;
      assert s[..n] == [s[0]] + s[1..][..m];
    }
  }

  lemma Samples()
    ensures SkipWords("select") == LStrip("select") == RTrim("select") == "select" && IsQuery("select")
    ensures Trim("select") == "select" && RStrip("select") == "select"
  {
    assert "select"[0] == 's' && "select"[5] == 't' && !IsSpace('s') && !IsSpace('t');
    assert !OptionWord("select");
  }

  /** The white space behind an option word separates it from every query if and only if there
      is a blank in it. */
  lemma SeparatorIff(w: string, sep: string)
    requires OptionWord(w) && ' ' !in w && Blank(sep)
    ensures (forall q :: IsQuery(SkipWords(w + sep + q)) == IsQuery(SkipWords(LStrip(q)))) <==> ' ' in sep
  {
    Samples();
    NothingLeft();
    StillOptionWord(w, sep + "select");
    assert w + sep + "select" == w + (sep + "select");
    hide OptionWord, SkipWords, LStrip, IsQuery;
    if ' ' in sep {
      forall q ensures SkipWords(w + sep + q) == SkipWords(LStrip(q)) { BlankSeparates(w, sep, q); }
    } else {
      WordTakesAll(w + sep + "select");
    }
  }

  // ------------------------------------------------------------------ behind EXPLAIN

  lemma NoOptions(x: string)
    requires x != "" && x[0] != '('
    ensures SkipOptions(x) == x
  {}

  /** What is judged behind EXPLAIN and a word: blanks and `;` at the right end are gone. */
  lemma JudgedExplain(h: string, c: string, q: string)
    requires ExplainStart(h)
    requires c != "" && !IsSpace(c[0]) && c[0] != '(' && c[|c| - 1] != ';'
    requires RStrip(q) == "" ==> !IsSpace(c[|c| - 1])
    ensures Judged(h + (c + q)) == SkipWords(c + RTrim(q))
  {
    hide Begins, SkipComments, SkipOptions, SkipWords, RTrim, RStrip, LStrip;
    var x := c + RTrim(q);
    ExplainHead(h, x);
    Assoc(h, c, q);
    Assoc(h, c, RTrim(q));
    assert (h + c)[0] == h[0] && (h + c)[|h + c| - 1] == c[|c| - 1];
    RTrimParts(h + c, q);
    LStripNothing(h + c + q);
    LStripNothing(h + x);
    LStripNothing(x);
    NoOptions(x);
  }

  lemma BlankAppend(v: string, q: string)
    requires Blank(v) && RStrip(q) == ""
    ensures RStrip(v + q) == "" && RTrim(v + q) == ""
  {
    var w := RStripFacts(q);
    assert v + q == "" + (v + w);
    RStripIs("", v + w);
  }

  lemma OptionWordStart(w: string, sep: string)
    requires Word(w) && OptionWord(w) && Blank(sep)
    ensures ' ' !in w && !IsSpace(w[0]) && w[0] != '(' && !IsSpace(w[|w| - 1]) && w[|w| - 1] != ';'
    ensures (w + sep)[0] == w[0] && (w + sep)[|w + sep| - 1] != ';'
  {}

  /** The same for the whole scanner, on `EXPLAIN <word><white space><query>`, however EXPLAIN is
      spelled and spaced: what is judged is
      the trimmed query less any further option words, for every query, if and only if there is
      a blank in the white space. */
  lemma ExplainSeparatorIff(h: string, w: string, sep: string)
    requires ExplainStart(h) && Word(w) && OptionWord(w) && Blank(sep)
    ensures (forall q :: IsQuery(Judged(h + (w + sep + q))) == IsQuery(SkipWords(Trim(q)))) <==> ' ' in sep
  {
    hide OptionWord, SkipWords, Judged, IsQuery;
    if ' ' in sep {
      forall q ensures Judged(h + (w + sep + q)) == SkipWords(Trim(q)) { QueryBehindWord(h, w, sep, q); }
    } else {
      RejectedBehindWord(h, w, sep);
    }
  }

  lemma QueryBehindWord(h: string, w: string, sep: string, q: string)
    requires ExplainStart(h) && Word(w) && OptionWord(w) && Blank(sep) && ' ' in sep
    ensures Judged(h + (w + sep + q)) == SkipWords(Trim(q))
  {
    hide OptionWord, SkipWords, Judged, LStrip, RStrip, RTrim, Trim;
    OptionWordStart(w, sep);
    if RStrip(q) == "" {
      Assoc(w, sep, q);
      BlankAppend(sep, q);
      JudgedExplain(h, w, sep + q);
      assert w + "" == w;
      WordTakesAll(w);
      BlankTrims(q);
      NothingLeft();
    } else {
      JudgedExplain(h, w + sep, q);
      BlankSeparates(w, sep, RTrim(q));
      TrimCommutes(q);
    }
  }

  lemma RejectedBehindWord(h: string, w: string, sep: string)
    requires ExplainStart(h) && Word(w) && OptionWord(w) && Blank(sep) && ' ' !in sep
    ensures !IsQuery(Judged(h + (w + sep + "select"))) && IsQuery(SkipWords(Trim("select")))
  {
    Samples();
    NothingLeft();
    var x := "select";
    assert ' ' !in x;
    hide OptionWord, SkipWords, Judged, LStrip, RStrip, IsQuery, RTrim, Trim;
    OptionWordStart(w, sep);
    Assoc(w, sep, x);
    StillOptionWord(w, sep + x);
    JudgedExplain(h, w + sep, x);
    WordTakesAll(w + sep + x);
  }

  /** Where there is no blank in the white space, the word reaches to the first blank of the text
      behind it: all up to there is cut off, and the rest is judged. */
  lemma JudgedBehindFirstBlank(h: string, w: string, head: string, rest: string)
    requires ExplainStart(h) && Word(w) && OptionWord(w) && ' ' !in head && RStrip(rest) != ""
    ensures Judged(h + (w + head + " " + rest)) == SkipWords(Trim(rest))
  {
    hide SkipWords, Judged, LStrip, RStrip, RTrim, Trim;
    OptionWordStart(w, "");
    StillOptionWord(w, head);
    var c := w + head + " ";
    assert c[0] == w[0] && c[|c| - 1] == ' ';
    JudgedExplain(h, c, rest);
    hide OptionWord;
    WordEndsAtBlank(w + head, RTrim(rest));
    TrimCommutes(rest);
  }

  // ------------------------------------------------------------------ two failures

  lemma TrimTidy(x: string)
    requires x != "" && Solid(x[0]) && Solid(x[|x| - 1])
    ensures Trim(x) == x && RStrip(x) == x
  {
    LStripNothing(x);
  }

  lemma JudgedTidy(x: string)
    requires x != "" && Solid(x[0]) && Solid(x[|x| - 1])
    requires x[0] != '-' && x[0] != '/' && LowerChar(x[0]) != 'e'
    ensures Judged(x) == x
  {
    TrimTidy(x);
  }

  lemma TidyBehindLineBreak(h: string, head: string, rest: string)
    requires ExplainStart(h) && ' ' !in head && rest != "" && Solid(rest[0]) && Solid(rest[|rest| - 1])
    ensures Judged(h + ("ANALYZE" + head + " " + rest)) == SkipWords(rest)
  {
    hide Judged, SkipWords;
    AnalyzeIsWord();
    TrimTidy(rest);
    hide OptionWord, Word, Trim, RStrip;
    JudgedBehindFirstBlank(h, "ANALYZE", head, rest);
  }

  /** A query is rejected behind EXPLAIN ANALYZE and a line break. */
  lemma QueryRejected(h: string)
    requires ExplainStart(h)
    ensures IsQuery(Judged("SELECT id FROM t"))
    ensures !IsQuery(Judged(h + ("ANALYZE" + "\nSELECT" + " " + "id FROM t")))
  {
    var q, head, rest := "SELECT id FROM t", "\nSELECT", "id FROM t";
    assert q[0] == 'S' && q[|q| - 1] == 't' && rest[0] == 'i' && rest[|rest| - 1] == 't' && ' ' !in head;
    assert IsQuery(q);
    hide Judged, SkipWords, IsQuery, OptionWord;
    JudgedTidy(q);
    TidyBehindLineBreak(h, head, rest);
    PlainStart(rest);
  }

  /** And a text that is no query is accepted there. */
  lemma OtherAccepted(h: string)
    requires ExplainStart(h)
    ensures !IsQuery(Judged("SHOW\nALL SELECT 1"))
    ensures IsQuery(Judged(h + ("ANALYZE" + "\nSHOW\nALL" + " " + "SELECT 1")))
  {
    var t, head, rest := "SHOW\nALL SELECT 1", "\nSHOW\nALL", "SELECT 1";
    assert t[0] == 'S' && t[1] == 'H' && t[|t| - 1] == '1' && ' ' !in head;
    assert rest[0] == 'S' && rest[1] == 'E' && rest[|rest| - 1] == '1';
    assert IsQuery(rest) && !IsQuery(t);
    hide Judged, SkipWords, IsQuery, OptionWord;
    JudgedTidy(t);
    TidyBehindLineBreak(h, head, rest);
    NoWordStart(rest);
  }

  lemma AnalyzeIsWord()
    ensures Word("ANALYZE") && OptionWord("ANALYZE")
  {
    assert Begins("ANALYZE", "analyze");
  }

  lemma NoWordStart(x: string)
    requires x != "" && LowerChar(x[0]) == 's' && (|x| < 2 || LowerChar(x[1]) != 'u')
    ensures SkipWords(x) == x
  {}

  /** No option word and no query begins with one of these letters. */
  lemma PlainStart(x: string)
    requires x != "" && LowerChar(x[0]) in {'i', 'j', 'x', 'y'}
    ensures SkipWords(x) == x && !IsQuery(x) && !OptionWord(x)
  {
    hide Begins;
    OtherStart(x, "analyze");
    OtherStart(x, "verbose");
    OtherStart(x, "buffers");
    OtherStart(x, "costs");
    OtherStart(x, "timing");
    OtherStart(x, "summary");
    OtherStart(x, "format");
    OtherStart(x, "select");
    OtherStart(x, "with ");
  }

  // ------------------------------------------------------------------ the value of FORMAT

  /** What stands behind a blank does not matter to a word without blanks, except at its end. */
  lemma BeginsBefore(v: string, r: string, word: string)
    requires forall k :: 0 <= k < |word| - 1 ==> word[k] != ' '
    ensures Begins(v + " " + r, word) <==> Begins(v + " ", word)
    ensures ' ' !in word ==> (Begins(v + " ", word) <==> Begins(v, word))
  {
    var s, n := v + " " + r, |v|;
    assert s[..n + 1] == v + " " && s[n] == ' ' && LowerChar(' ') == ' ';
    assert forall k :: 0 <= k < n ==> s[k] == v[k];
  }

  lemma ValueStays(v: string, r: string)
    requires v != "" && !OptionWord(v)
    ensures SkipWords(v + " " + r) == v + " " + r
    ensures IsQuery(v + " " + r) <==> IsQuery(v + " ")
  {
    BeginsBefore(v, r, "analyze");
    BeginsBefore(v, r, "verbose");
    BeginsBefore(v, r, "buffers");
    BeginsBefore(v, r, "costs");
    BeginsBefore(v, r, "timing");
    BeginsBefore(v, r, "summary");
    BeginsBefore(v, r, "format");
    BeginsBefore(v, r, "select");
    BeginsBefore(v, r, "with ");
    hide Begins;
    NoWord(v + " " + r);
  }

  /** The value behind FORMAT is dropped, whatever follows it, if and only if it begins with an
      option word itself. */
  lemma ValueIsDroppedIff(v: string)
    requires v != "" && ' ' !in v
    ensures (forall q :: IsQuery(SkipWords(v + " " + q)) == IsQuery(SkipWords(LStrip(q)))) <==> OptionWord(v)
  {
    Samples();
    NothingLeft();
    hide OptionWord, SkipWords, LStrip, IsQuery;
    if OptionWord(v) {
      forall q ensures SkipWords(v + " " + q) == SkipWords(LStrip(q)) { WordEndsAtBlank(v, q); }
    } else {
      ValueStays(v, "select");
      ValueStays(v, "");
      LStripNothing("");
      assert IsQuery(SkipWords(v + " " + "select")) == IsQuery(SkipWords(v + " " + ""));
    }
  }

  lemma JudgedFormat(h: string, f: string, sep: string, v: string, sql: string)
    requires ExplainStart(h) && Spaced(f, sep) && Word(v)
    ensures Judged(h + (f + sep + (v + " " + sql)))
         == SkipWords(if RStrip(sql) == "" then v else v + " " + RTrim(sql))
  {
    hide OptionWord, SkipWords, Judged;
    QueryBehindWord(h, f, sep, v + " " + sql);
    TrimValue(v, sql);
  }

  lemma TrimValue(v: string, sql: string)
    requires Word(v)
    ensures Trim(v + " " + sql) == if RStrip(sql) == "" then v else v + " " + RTrim(sql)
  {
    assert (v + " ")[0] == v[0] && (v + " " + sql)[0] == v[0];
    LStripNothing(v + " " + sql);
    hide RStrip, RStripChar;
    if RStrip(sql) == "" {
      BlankAppend(" ", sql);
      RTrimParts(v, " " + sql);
      Assoc(v, " ", sql);
      assert v + "" == v;
      LStripNothing(v);
    } else {
      RTrimParts(v + " ", sql);
      LStripNothing(v + " " + RTrim(sql));
    }
  }

  /** The same for the whole scanner, on `EXPLAIN <word> <value> <query>`, the word being FORMAT
      or any other option word. */
  lemma ExplainFormatIff(h: string, f: string, sep: string, v: string)
    requires ExplainStart(h) && Spaced(f, sep) && Word(v)
    ensures (forall sql :: IsQuery(Judged(h + (f + sep + (v + " " + sql)))) == IsQuery(SkipWords(Trim(sql))))
            <==> OptionWord(v)
  {
    hide OptionWord, SkipWords, Judged, IsQuery, Trim, RTrim, RStrip, Word;
    if OptionWord(v) {
      forall sql ensures IsQuery(Judged(h + (f + sep + (v + " " + sql)))) == IsQuery(SkipWords(Trim(sql))) {
        DroppedValue(h, f, sep, v, sql);
      }
    } else {
      KeptValue(h, f, sep, v, "select");
      KeptValue(h, f, sep, v, "x");
      SampleTexts();
      assert IsQuery(Judged(h + (f + sep + (v + " " + "select"))))
          == IsQuery(Judged(h + (f + sep + (v + " " + "x"))));
    }
  }

  lemma SampleTexts()
    ensures RStrip("x") == "x" && RStrip("select") == "select"
    ensures IsQuery(SkipWords(Trim("select"))) && !IsQuery(SkipWords(Trim("x")))
  {
    Samples();
    TrimTidy("x");
    PlainStart("x");
  }

  lemma DroppedValue(h: string, f: string, sep: string, v: string, sql: string)
    requires ExplainStart(h) && Spaced(f, sep) && Word(v) && OptionWord(v)
    ensures IsQuery(Judged(h + (f + sep + (v + " " + sql)))) == IsQuery(SkipWords(Trim(sql)))
  {
    OptionWordStart(v, "");
    hide OptionWord, SkipWords, Judged, IsQuery, Trim, RTrim, RStrip, LStrip;
    JudgedFormat(h, f, sep, v, sql);
    if RStrip(sql) == "" {
      WordTakesAll(v);
      BlankTrims(sql);
      NothingLeft();
    } else {
      WordEndsAtBlank(v, RTrim(sql));
      TrimCommutes(sql);
    }
  }

  lemma KeptValue(h: string, f: string, sep: string, v: string, sql: string)
    requires ExplainStart(h) && Spaced(f, sep) && Word(v) && !OptionWord(v)
    ensures RStrip(sql) != "" ==>
              (IsQuery(Judged(h + (f + sep + (v + " " + sql)))) <==> IsQuery(v + " "))
    ensures IsQuery(Judged(h + (f + sep + (v + " " + sql)))) ==> IsQuery(v + " ")
  {
    hide OptionWord, SkipWords, Judged, IsQuery, RTrim, RStrip;
    JudgedFormat(h, f, sep, v, sql);
    ValueStays(v, RTrim(sql));
    NoWord(v);
    QueryPrefix(v, " ");
  }

  lemma QueryPrefix(v: string, x: string)
    ensures IsQuery(v) ==> IsQuery(v + x)
  {}

  /** A value of FORMAT, in any letter case. */
  predicate FormatValue(v: string) {
    (|v| == 4 && (Begins(v, "json") || Begins(v, "text") || Begins(v, "yaml"))) || (|v| == 3 && Begins(v, "xml"))
  }

  /** The scanner keeps each value that FORMAT has: no query behind one is accepted. */
  lemma FormatValueStays(h: string, f: string, sep: string, v: string, sql: string)
    requires ExplainStart(h) && Spaced(f, sep) && FormatValue(v)
    ensures Word(v) && !IsQuery(Judged(h + (f + sep + (v + " " + sql))))
  {
    FormatValueIsPlain(v);
    hide OptionWord, IsQuery, Judged, Word;
    KeptValue(h, f, sep, v, sql);
  }

  lemma FormatValueIsPlain(v: string)
    requires FormatValue(v)
    ensures Word(v) && !OptionWord(v) && !IsQuery(v + " ")
  {
    var x := v + " ";
    assert LowerChar(v[0]) in {'j', 't', 'x', 'y'} && LowerChar(v[1]) in {'s', 'e', 'm', 'a'} && x[0] == v[0];
    assert Word(v);
    assert !Begins(v, "timing");
    hide Begins;
    OtherStart(v, "analyze");
    OtherStart(v, "verbose");
    OtherStart(v, "buffers");
    OtherStart(v, "costs");
    OtherStart(v, "summary");
    OtherStart(v, "format");
    OtherStart(x, "select");
    OtherStart(x, "with ");
  }
}
