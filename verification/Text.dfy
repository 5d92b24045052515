/** The string operations of the Python and JavaScript sources, on ASCII text:
    substring search, prefix tests, trimming and lower-casing. */
module Text {

  predicate StartsWith(s: string, p: string) {
    |p| <= |s| && s[..|p|] == p
  }

  /** The two characters a, b stand in s at position k. */
  predicate PairAt(s: string, a: char, b: char, k: int) {
    0 <= k && k + 1 < |s| && s[k] == a && s[k + 1] == b
  }

  /** `str.find` / `indexOf` for a two-character pattern: its first position, or -1. */
  function FindPair(s: string, a: char, b: char): (r: int)
    ensures -1 <= r
    ensures r >= 0 ==> PairAt(s, a, b, r)
  {
    if PairAt(s, a, b, 0) then 0
    else if s == "" then -1
    else
      var r := FindPair(s[1..], a, b);
      if r < 0 then -1 else r + 1
  }

  lemma {:induction false} FindPairLeast(s: string, a: char, b: char, k: int)
    ensures PairAt(s, a, b, k) ==> 0 <= FindPair(s, a, b) <= k
  {
    if PairAt(s, a, b, k) && k > 0 {
      FindPairLeast(s[1..], a, b, k - 1);
    }
  }

  /** Appending text never moves an occurrence that was already complete. */
  lemma {:induction false} FindPairAppend(s: string, t: string, a: char, b: char)
    ensures FindPair(s, a, b) >= 0 ==> FindPair(s + t, a, b) == FindPair(s, a, b)
  {
    if s != "" && !PairAt(s, a, b, 0) {
      assert (s + t)[1..] == s[1..] + t;
      FindPairAppend(s[1..], t, a, b);
      var r := FindPair(s[1..], a, b);
    }
  }

  /** `str.find` for one character. */
  function FindChar(s: string, c: char): (r: int)
    ensures -1 <= r
    ensures r >= 0 ==> r < |s| && s[r] == c
  {
    if s == "" then -1
    else if s[0] == c then 0
    else
      var r := FindChar(s[1..], c);
      if r < 0 then -1 else r + 1
  }

  /** What stands behind the first c, or nothing. */
  function Behind(s: string, c: char): (r: string)
    ensures s != "" ==> |r| < |s|
  {
    if s == "" then "" else if s[0] == c then s[1..] else Behind(s[1..], c)
  }

  lemma {:induction false} BehindIs(s: string, c: char)
    ensures Behind(s, c) == if FindChar(s, c) >= 0 then s[FindChar(s, c) + 1..] else ""
  {
    if s != "" && s[0] != c { BehindIs(s[1..], c); }
  }

  /** What stands behind the first pair a, b, or nothing. */
  function BehindPair(s: string, a: char, b: char): (r: string)
    ensures s != "" ==> |r| < |s|
  {
    if s == "" then "" else if PairAt(s, a, b, 0) then s[2..] else BehindPair(s[1..], a, b)
  }

  lemma {:induction false} BehindPairIs(s: string, a: char, b: char)
    ensures BehindPair(s, a, b) == if FindPair(s, a, b) >= 0 then s[FindPair(s, a, b) + 2..] else ""
  {
    if s != "" && !PairAt(s, a, b, 0) { BehindPairIs(s[1..], a, b); }
  }

  lemma {:induction false} FindCharIs(s: string, c: char, n: int)
    requires 0 <= n < |s| && s[n] == c && c !in s[..n]
    ensures FindChar(s, c) == n
  {
    if n > 0 {
      assert s[0] in s[..n];
      assert s[1..][..n - 1] == s[..n][1..];
      FindCharIs(s[1..], c, n - 1);
    }
  }

  lemma {:induction false} FindCharNone(s: string, c: char)
    requires c !in s
    ensures FindChar(s, c) == -1
  {
    if s != "" { FindCharNone(s[1..], c); }
  }

  /** ASCII white space, as `str.strip` sees it. */
  predicate IsSpace(c: char) {
    c == ' ' || '\t' <= c <= '\r' || '\U{1c}' <= c <= '\U{1f}'
  }

  lemma SpaceIs(c: char)
    ensures IsSpace(c)
            <==> c in {' ', '\t', '\n', '\U{0b}', '\U{0c}', '\r', '\U{1c}', '\U{1d}', '\U{1e}', '\U{1f}'}
  {}

  function LStrip(s: string): (r: string)
    ensures |r| <= |s|
  {
    if s != "" && IsSpace(s[0]) then LStrip(s[1..]) else s
  }

  function RStrip(s: string): (r: string)
    ensures |r| <= |s|
  {
    if s != "" && IsSpace(s[|s| - 1]) then RStrip(s[..|s| - 1]) else s
  }

  /** `s.rstrip(c)` for one character. */
  function RStripChar(s: string, c: char): (r: string)
    ensures |r| <= |s|
  {
    if s != "" && s[|s| - 1] == c then RStripChar(s[..|s| - 1], c) else s
  }

  function Strip(s: string): string {
    RStrip(LStrip(s))
  }

  function LowerChar(c: char): char {
    if 'A' <= c <= 'Z' then ((c as int) - ('A' as int) + ('a' as int)) as char else c
  }

  /** `s.lower().startswith(word)` for a lower-case word. */
  predicate Begins(s: string, word: string) {
    |word| <= |s| && forall k :: 0 <= k < |word| ==> LowerChar(s[k]) == word[k]
  }

  lemma OtherStart(s: string, word: string)
    requires word != "" && s != "" && LowerChar(s[0]) != word[0]
    ensures !Begins(s, word)
  {}

  /** `s[:n]` for a non-negative n. */
  function Take(s: string, n: nat): (r: string)
    ensures r <= s && |r| <= n && (|r| < n ==> r == s)
  {
    if |s| <= n then s else s[..n]
  }

  // ------------------------------------------------------------------ trimming

  lemma Assoc<T>(a: seq<T>, b: seq<T>, c: seq<T>)
    ensures a + b + c == a + (b + c)
  {}

  predicate Blank(s: string) {
    forall k :: 0 <= k < |s| ==> IsSpace(s[k])
  }

  /** A text is its leading blanks and what `lstrip` leaves of it. */
  lemma {:induction false} LStripFacts(s: string) returns (w: string)
    ensures s == w + LStrip(s) && Blank(w)
    ensures LStrip(s) != "" ==> !IsSpace(LStrip(s)[0])
  {
    w := "";
    if s != "" && IsSpace(s[0]) {
      var v := LStripFacts(s[1..]);
      w := [s[0]] + v;
      assert s == [s[0]] + s[1..];
    }
  }

  lemma {:induction false} LStripIs(w: string, r: string)
    requires Blank(w) && (r != "" ==> !IsSpace(r[0]))
    ensures LStrip(w + r) == r
  {
    if w == "" {
      assert w + r == r;
    } else {
      assert (w + r)[1..] == w[1..] + r;
      LStripIs(w[1..], r);
    }
  }

  lemma LStripNothing(r: string)
    requires r != "" ==> !IsSpace(r[0])
    ensures LStrip(r) == r
  {}

  lemma {:induction false} RStripFacts(s: string) returns (w: string)
    ensures s == RStrip(s) + w && Blank(w)
    ensures RStrip(s) != "" ==> !IsSpace(RStrip(s)[|RStrip(s)| - 1])
  {
    w := "";
    if s != "" && IsSpace(s[|s| - 1]) {
      var front, last := s[..|s| - 1], s[|s| - 1];
      assert RStrip(s) == RStrip(front) && s == front + [last];
      hide RStrip;
      var v := RStripFacts(front);
      w := v + [last];
      Assoc(RStrip(front), v, [last]);
    }
  }

  lemma {:induction false} RStripIs(r: string, w: string)
    requires Blank(w) && (r != "" ==> !IsSpace(r[|r| - 1]))
    ensures RStrip(r + w) == r
  {
    if w == "" {
      assert r + w == r;
    } else {
      assert (r + w)[..|r + w| - 1] == r + w[..|w| - 1];
      RStripIs(r, w[..|w| - 1]);
    }
  }

  /** Only the given character. */
  predicate Only(s: string, c: char) {
    forall k :: 0 <= k < |s| ==> s[k] == c
  }

  lemma {:induction false} RStripCharFacts(s: string, c: char) returns (w: string)
    ensures s == RStripChar(s, c) + w && Only(w, c)
    ensures RStripChar(s, c) != "" ==> RStripChar(s, c)[|RStripChar(s, c)| - 1] != c
  {
    w := "";
    if s != "" && s[|s| - 1] == c {
      var front := s[..|s| - 1];
      assert RStripChar(s, c) == RStripChar(front, c) && s == front + [c];
      hide RStripChar;
      var v := RStripCharFacts(front, c);
      w := v + [c];
      Assoc(RStripChar(front, c), v, [c]);
    }
  }

  lemma {:induction false} RStripCharIs(r: string, w: string, c: char)
    requires Only(w, c) && (r != "" ==> r[|r| - 1] != c)
    ensures RStripChar(r + w, c) == r
  {
    if w == "" {
      assert r + w == r;
    } else {
      assert (r + w)[..|r + w| - 1] == r + w[..|w| - 1];
      RStripCharIs(r, w[..|w| - 1], c);
    }
  }

  /** Leading white space does not change what `strip` returns. */
  lemma {:induction false} StripIgnoresLead(w: string, s: string)
    requires Blank(w)
    ensures Strip(w + s) == Strip(s)
  {
    if w == "" {
      assert w + s == s;
    } else {
      assert (w + s)[1..] == w[1..] + s;
      StripIgnoresLead(w[1..], s);
    }
  }

  /** `strip` takes off the white space at both ends, and all of it. */
  lemma StripFacts(s: string) returns (w: string, v: string)
    ensures s == w + Strip(s) + v && Blank(w) && Blank(v)
    ensures var r := Strip(s); r != "" ==> !IsSpace(r[0]) && !IsSpace(r[|r| - 1])
  {
    w := LStripFacts(s);
    v := RStripFacts(LStrip(s));
    hide RStrip, LStrip;
    Assoc(w, Strip(s), v);
    assert Strip(s) != "" ==> LStrip(s)[0] == Strip(s)[0];
  }

  lemma StripTwice(t: string)
    ensures Strip(Strip(t)) == Strip(t)
  {
    var l := LStrip(t);
    var v := LStripFacts(t);
    var w := RStripFacts(l);
    var r := RStrip(l);
    if r != "" { assert r[0] == l[0]; }
    LStripNothing(r);
    assert r + "" == r;
    RStripIs(r, "");
  }

  /** A slice `rs[:n]`; a negative n counts from the end. */
  function Front<T>(rs: seq<T>, n: int): seq<T> {
    if n >= 0 then (if n < |rs| then rs[..n] else rs)
    else if |rs| + n >= 0 then rs[..|rs| + n] else []
  }
}
