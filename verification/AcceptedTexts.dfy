/** Whole families of texts and what the scanner says to them, in terms of their letters. */
module AcceptedTexts {
  import opened Text
  import opened SafeSelect
  import opened UnchangedVerdict
  import opened OptionWords

  lemma LetterIs(s: string, word: string, k: nat)
    requires Spelled(s, word) && k < |word|
    ensures s[k] == word[k] || s[k] as int + 32 == word[k] as int
  {}

  /** `select` in any letter case is accepted, whatever follows it. */
  lemma SelectIsAccepted(s: string, r: string)
    requires Spelled(s, "select")
    ensures IsQuery(Judged(s + r))
  {
    LetterIs(s, "select", 0);
    LetterIs(s, "select", 5);
    assert Solid(s[5]) && !IsSpace(s[0]) && s[0] != '-' && s[0] != '/' && LowerChar(s[0]) != 'e';
    RTrimAppend(s, r);
    LStripNothing(s + r);
    LStripNothing(s + RTrim(r));
    var t := Trim(s + r);
    assert t == s + RTrim(r) && t[..6] == s;
    BeginsIs(t, "select");
    hide Trim, RTrim, LStrip;
    PlainStaysPlain(s + r);
  }

  lemma PlainStaysPlain(sql: string)
    requires var t := Trim(sql); t != "" && t[0] != '-' && t[0] != '/' && LowerChar(t[0]) != 'e'
    ensures Judged(sql) == Trim(sql)
  {
    hide Trim, Begins;
    OtherStart(Trim(sql), "explain");
  }

  /** `with` and a blank, in any letter case, is accepted exactly if anything but white space
      follows: otherwise the blank is trimmed off. */
  lemma WithIsAccepted(w: string, r: string)
    requires Spelled(w, "with ")
    ensures IsQuery(Judged(w + r)) <==> !Blank(r)
  {
    var v := w[..4];
    LetterIs(w, "with ", 0);
    LetterIs(w, "with ", 3);
    assert w[4] == ' ' && w == v + " ";
    if Blank(r) { WithNothing(v, r); } else { WithSomething(w, r); }
  }

  lemma WithNothing(v: string, r: string)
    requires |v| == 4 && Solid(v[0]) && Solid(v[3]) && v[0] != '-' && v[0] != '/' && LowerChar(v[0]) != 'e' && Blank(r)
    ensures !IsQuery(Judged(v + " " + r))
  {
    Assoc(v, " ", r);
    RTrimBlank(v, " " + r);
    RTrimAppend(v, "");
    assert v + "" == v;
    hide Trim, RTrim;
    TooShort(v + " " + r, v);
  }

  lemma WithSomething(w: string, r: string)
    requires Spelled(w, "with ") && !Blank(r)
    ensures IsQuery(Judged(w + r))
  {
    LetterIs(w, "with ", 0);
    NotAllBlank(r);
    RTrimParts(w, r);
    LStripNothing(w + r);
    LStripNothing(w + RTrim(r));
    assert (w + RTrim(r))[..5] == w;
    BeginsIs(w + RTrim(r), "with ");
    hide Trim, RTrim, LStrip;
    PlainStaysPlain(w + r);
  }

  lemma TooShort(sql: string, v: string)
    requires |v| == 4 && !IsSpace(v[0]) && v[0] != '-' && v[0] != '/' && LowerChar(v[0]) != 'e'
    requires RTrim(sql) == v
    ensures !IsQuery(Judged(sql))
  {
    TrimCommutes(sql);
    LStripNothing(v);
    PlainStaysPlain(sql);
  }

  lemma {:induction false} NotAllBlank(r: string)
    requires !Blank(r)
    ensures RStrip(r) != ""
  {
    var k :| 0 <= k < |r| && !IsSpace(r[k]);
    if k < |r| - 1 && IsSpace(r[|r| - 1]) {
      assert r[..|r| - 1][k] == r[k];
      NotAllBlank(r[..|r| - 1]);
    }
  }

  /** A text whose first letter behind the white space is that of no query, EXPLAIN or comment is
      rejected: INSERT, UPDATE, DELETE and DROP among them. */
  lemma OthersAreRejected(sql: string)
    requires var t := Trim(sql); t == "" || t[0] !in {'s', 'S', 'w', 'W', 'e', 'E', '-', '/'}
    ensures !IsQuery(Judged(sql))
  {
    var t := Trim(sql);
    if t == "" {
      NothingLeft();
    } else {
      hide Trim, Begins;
      OtherStart(t, "select");
      OtherStart(t, "with ");
      PlainStaysPlain(sql);
    }
  }

  lemma ChangesAreRejected(s: string, word: string, r: string)
    requires word in {"insert", "update", "delete", "drop", "truncate", "alter", "create", "grant"} && Spelled(s, word)
    ensures !IsQuery(Judged(s + r))
  {
    LetterIs(s, word, 0);
    var n := |word| - 1;
    assert word[n] in {'t', 'e', 'p', 'r'} && word[0] in {'i', 'u', 'd', 't', 'a', 'c', 'g'};
    LetterIs(s, word, n);
    assert Solid(s[n]) && !IsSpace(s[0]);
    RTrimAppend(s, r);
    LStripNothing(s + r);
    LStripNothing(s + RTrim(r));
    assert Trim(s + r)[0] == s[0];
    hide Trim, RTrim, LStrip, Spelled;
    OthersAreRejected(s + r);
  }

  // ------------------------------------------------------------------ the words behind EXPLAIN

  const OPTION_WORDS := {"analyze", "verbose", "buffers", "costs", "timing", "summary", "format"}

  /** There are seven option words, in any letter case. */
  lemma OptionWordIff(s: string)
    ensures OptionWord(s) <==> exists w :: w in OPTION_WORDS && StartsAs(s, w)
  {
    BeginsIs(s, "analyze");
    BeginsIs(s, "verbose");
    BeginsIs(s, "buffers");
    BeginsIs(s, "costs");
    BeginsIs(s, "timing");
    BeginsIs(s, "summary");
    BeginsIs(s, "format");
    hide Begins, StartsAs;
    assert "analyze" in OPTION_WORDS && "verbose" in OPTION_WORDS && "buffers" in OPTION_WORDS
        && "costs" in OPTION_WORDS && "timing" in OPTION_WORDS && "summary" in OPTION_WORDS && "format" in OPTION_WORDS;
  }

  lemma SpelledIsWord(s: string, word: string)
    requires Spelled(s, word) && word != "" && forall k :: 0 <= k < |word| ==> 'a' <= word[k] <= 'z'
    ensures Word(s) && StartsAs(s, word)
  {
    forall k | 0 <= k < |s| ensures Solid(s[k]) { LetterIs(s, word, k); }
    assert s[..|word|] == s;
  }

  /** Each of them is dropped behind EXPLAIN, with white space that holds a blank. */
  lemma OptionWordIsDropped(h: string, s: string, word: string, sep: string, q: string)
    requires ExplainStart(h) && word in OPTION_WORDS && Spelled(s, word) && Blank(sep) && ' ' in sep
    ensures Judged(h + (s + sep + q)) == SkipWords(Trim(q))
  {
    SpelledIsWord(s, word);
    OptionWordIff(s);
    QueryBehindWord(h, s, sep, q);
  }

  /** A parenthesis that is never closed is left as it is, so nothing is accepted. */
  lemma OpenParenthesisIsRejected(h: string, x: string)
    requires ExplainStart(h) && ')' !in x
    ensures !IsQuery(Judged(h + ("(" + x)))
  {
    var c, r := h + "(", RTrim(x);
    Assoc(h, "(", x);
    Assoc(h, "(", r);
    assert c[0] == h[0] && c[|c| - 1] == '(' && Solid('(');
    var y := "(" + r;
    ExplainHead(h, y);
    RTrimAppend(c, x);
    LStripNothing(c + x);
    LStripNothing(c + r);
    LStripNothing(y);
    ShorterHasNone(x);
    NoParen(y, 0, 0);
    hide Trim, RTrim, LStrip, CloseParen, Begins, SkipComments;
    OtherStart(y, "select");
    OtherStart(y, "with ");
    NoWordHere(y);
    assert Judged(h + ("(" + x)) == SkipWords(y);
  }

  lemma ShorterHasNone(x: string)
    requires ')' !in x
    ensures forall k :: 0 <= k < |"(" + RTrim(x)| ==> ("(" + RTrim(x))[k] != ')'
  {
    var w := RStripFacts(x);
    var v := RStripCharFacts(RStrip(x), ';');
    hide RStrip, RStripChar;
    forall k | 0 <= k < |RTrim(x)| ensures RTrim(x)[k] != ')' { assert x[k] == RTrim(x)[k]; }
  }

  lemma NoWordHere(y: string)
    requires y != "" && y[0] == '('
    ensures SkipWords(y) == y
  {
    hide Begins;
    OtherStart(y, "analyze");
    OtherStart(y, "verbose");
    OtherStart(y, "buffers");
    OtherStart(y, "costs");
    OtherStart(y, "timing");
    OtherStart(y, "summary");
    OtherStart(y, "format");
  }

  // ------------------------------------------------------------------ comments that do not end

  /** A comment that does not end hides everything: nothing is accepted. */
  lemma OpenCommentIsRejected(sql: string)
    requires var t := Trim(sql);
      (StartsWith(t, "--") && '\n' !in t) || (StartsWith(t, "/*") && FindPair(t, '*', '/') < 0)
    ensures !IsQuery(Judged(sql))
  {
    var t := Trim(sql);
    hide Trim;
    assert StartsWith(t, "--") ==> t[..2][0] == '-' && t[..2][1] == '-';
    assert StartsWith(t, "/*") ==> t[..2][0] == '/' && t[..2][1] == '*';
    if StartsWith(t, "--") {
      FindCharNone(t, '\n');
      AfterLineIs(t);
    } else {
      AfterCloseIs(t);
    }
    NothingLeft();
  }
}
