/** Checksums of personal data in literals (`sensitive.py`): the Luhn formula of card numbers
    (ISO/IEC 7812-1, Annex B) and the mod-101 control number of SNILS. */
module Checksums {
  import opened Text

  predicate IsDigit(c: char) { '0' <= c <= '9' }

  predicate Digits(ds: seq<int>) {
    forall k :: 0 <= k < |ds| ==> 0 <= ds[k] <= 9
  }

  /** The digits of a text; everything else is dropped. */
  function DigitsOf(s: string): (ds: seq<int>)
    ensures Digits(ds)
  {
    if s == "" then []
    else DigitsOf(s[..|s| - 1]) + DigitOf(s[|s| - 1])
  }

  function DigitOf(c: char): (ds: seq<int>)
    ensures Digits(ds)
  {
    if IsDigit(c) then [c as int - '0' as int] else []
  }

  lemma {:induction false} DigitsOfConcat(a: string, b: string)
    ensures DigitsOf(a + b) == DigitsOf(a) + DigitsOf(b)
  {
    if b == "" {
      assert a + b == a;
    } else {
      var n := |b| - 1;
      DigitsOfConcat(a, b[..n]);
      SplitLast(a, b);
      DigitsOfSnoc(a + b[..n], b[n]);
      DigitsOfSnoc(b[..n], b[n]);
      Assoc(DigitsOf(a), DigitsOf(b[..n]), DigitOf(b[n]));
    }
  }

  lemma DigitsOfSnoc(s: string, c: char)
    ensures DigitsOf(s + [c]) == DigitsOf(s) + DigitOf(c)
  {
    assert (s + [c])[..|s|] == s;
  }

  lemma SplitLast(a: string, b: string)
    requires b != ""
    ensures a + b == a + b[..|b| - 1] + [b[|b| - 1]] && b == b[..|b| - 1] + [b[|b| - 1]]
  {}

  /** A sum over positions and digits. */
  function Total(term: (int, int) -> int, ds: seq<int>): int {
    if ds == [] then 0 else Total(term, ds[..|ds| - 1]) + term(|ds| - 1, ds[|ds| - 1])
  }

  /** Changing one digit changes one term. */
  lemma {:induction false} TotalUpdate(term: (int, int) -> int, ds: seq<int>, i: int, d: int)
    requires 0 <= i < |ds|
    ensures Total(term, ds[i := d]) == Total(term, ds) - term(i, ds[i]) + term(i, d)
  {
    var n := |ds| - 1;
    if i == n {
      assert ds[i := d][..n] == ds[..n];
    } else {
      assert ds[i := d][..n] == ds[..n][i := d];
      TotalUpdate(term, ds[..n], i, d);
    }
  }

  function Swapped(ds: seq<int>, i: int): seq<int>
    requires 0 <= i < |ds| - 1
  {
    ds[i := ds[i + 1]][i + 1 := ds[i]]
  }

  lemma TotalSwap(term: (int, int) -> int, ds: seq<int>, i: int)
    requires 0 <= i < |ds| - 1
    ensures Total(term, Swapped(ds, i))
         == Total(term, ds) - term(i, ds[i]) - term(i + 1, ds[i + 1]) + term(i, ds[i + 1]) + term(i + 1, ds[i])
  {
    TotalUpdate(term, ds, i, ds[i + 1]);
    TotalUpdate(term, ds[i := ds[i + 1]], i + 1, ds[i]);
  }

  // ------------------------------------------------------------------ Luhn

  function Doubled(d: int): int {
    if 2 * d > 9 then 2 * d - 9 else 2 * d
  }

  /** What the loop adds at position i: positions of the given parity are doubled. */
  function LuhnTerm(parity: int): (int, int) -> int {
    (i: int, d: int) => if i % 2 == parity then Doubled(d) else d
  }

  function LuhnSum(ds: seq<int>): int {
    Total(LuhnTerm(|ds| % 2), ds)
  }

  predicate LuhnDigits(ds: seq<int>) {
    |ds| >= 13 && LuhnSum(ds) % 10 == 0
  }

  method LuhnValid(number: string) returns (ok: bool)
    ensures ok == LuhnDigits(DigitsOf(number))
    ensures ok <==> |DigitsOf(number)| >= 13 && FromRight(DigitsOf(number), false) % 10 == 0
  {
    LuhnIsStandard(number);
    hide FromRight;
    var digits := DigitsOf(number);
    if |digits| < 13 {
      return false;
    }
    var checksum := 0;
    var parity := |digits| % 2;
    for i := 0 to |digits|
      invariant checksum == Total(LuhnTerm(parity), digits[..i])
    {
      assert digits[..i + 1][..i] == digits[..i];
      var d := digits[i];
      if i % 2 == parity {
        d := d * 2;
        if d > 9 {
          d := d - 9;
        }
      }
      checksum := checksum + d;
    }
    assert digits[..|digits|] == digits;
    return checksum % 10 == 0;
  }

  /** The standard's definition: from the right, every second digit is doubled, starting with the
      one next to the check digit, and the digits of all the numbers are added up. */
  function FromRight(ds: seq<int>, double: bool): int {
    if ds == [] then 0
    else
      var d := ds[|ds| - 1];
      FromRight(ds[..|ds| - 1], !double) + if double then (2 * d) / 10 + (2 * d) % 10 else d
  }

  lemma DoubledIsDigitSum(d: int)
    requires 0 <= d <= 9
    ensures Doubled(d) == (2 * d) / 10 + (2 * d) % 10
  {}

  lemma {:induction false} ParityFromRight(ds: seq<int>, parity: int)
    requires Digits(ds) && (parity == 0 || parity == 1)
    ensures Total(LuhnTerm(parity), ds) == FromRight(ds, (|ds| + 1) % 2 == parity)
  {
    if ds != [] {
      ParityFromRight(ds[..|ds| - 1], parity);
      DoubledIsDigitSum(ds[|ds| - 1]);
    }
  }

  /** On every string: the loop's sum is the standard's, and valid means thirteen digits or more
      whose sum ends in 0. */
  lemma {:induction false} LuhnIsStandard(number: string)
    ensures var ds := DigitsOf(number);
      && LuhnSum(ds) == FromRight(ds, false)
      && (LuhnDigits(ds) <==> |ds| >= 13 && FromRight(ds, false) % 10 == 0)
  {
    LuhnSumIs(DigitsOf(number));
    hide LuhnSum, FromRight, DigitsOf;
  }

  lemma {:induction false} LuhnSumIs(ds: seq<int>)
    requires Digits(ds)
    ensures LuhnSum(ds) == FromRight(ds, false)
  {
    hide Total, FromRight;
    ParityFromRight(ds, |ds| % 2);
  }

  /** A text of digits is read digit by digit. */
  lemma {:induction false} DigitsAreRead(s: string)
    requires forall k :: 0 <= k < |s| ==> '0' <= s[k] <= '9'
    ensures |DigitsOf(s)| == |s|
    ensures forall k :: 0 <= k < |s| ==> DigitsOf(s)[k] == s[k] as int - '0' as int
  {
    if s != "" { DigitsAreRead(s[..|s| - 1]); }
  }

  /** Every change of a single digit is detected. */
  lemma LuhnCatchesSubstitution(ds: seq<int>, i: int, d: int)
    requires Digits(ds) && LuhnDigits(ds) && 0 <= i < |ds| && 0 <= d <= 9 && d != ds[i]
    ensures !LuhnDigits(ds[i := d])
  {
    var term := LuhnTerm(|ds| % 2);
    TotalUpdate(term, ds, i, d);
    var e := term(i, d) - term(i, ds[i]);
    LuhnShift(LuhnSum(ds), e);
    DoublingIsInjective(ds[i], d);
    assert -9 <= e <= 9 && e != 0;
  }

  lemma DoublingIsInjective(a: int, b: int)
    requires 0 <= a <= 9 && 0 <= b <= 9
    ensures 0 <= Doubled(a) <= 9 && (Doubled(a) == Doubled(b) <==> a == b)
  {}

  /** A swap of neighbours goes undetected exactly when the digits are equal or 0 and 9. */
  lemma LuhnSwap(ds: seq<int>, i: int)
    requires Digits(ds) && LuhnDigits(ds) && 0 <= i < |ds| - 1
    ensures LuhnDigits(Swapped(ds, i))
            <==> ds[i] == ds[i + 1] || (ds[i] == 0 && ds[i + 1] == 9) || (ds[i] == 9 && ds[i + 1] == 0)
  {
    hide Total;
    var term := LuhnTerm(|ds| % 2);
    TotalSwap(term, ds, i);
    var a, b := ds[i], ds[i + 1];
    var e := term(i, b) + term(i + 1, a) - term(i, a) - term(i + 1, b);
    LuhnShift(LuhnSum(ds), e);
    SwapTerms(a, b);
    var x := Doubled(b) + a - Doubled(a) - b;
    assert e == if i % 2 == |ds| % 2 then x else -x;
    SmallMultiple(e);
  }

  lemma SwapTerms(a: int, b: int)
    requires 0 <= a <= 9 && 0 <= b <= 9
    ensures var x := Doubled(b) + a - Doubled(a) - b;
            -8 <= x <= 8 && (x == 0 <==> a == b || (a == 0 && b == 9) || (a == 9 && b == 0))
  {}

  lemma SmallMultiple(e: int)
    requires -8 <= e <= 8
    ensures e % 10 == 0 <==> e == 0
  {}

  lemma LuhnShift(s: int, e: int)
    requires s % 10 == 0
    ensures (s + e) % 10 == 0 <==> e % 10 == 0
  {}

  /** Every body of at least twelve digits has exactly one check digit. */
  lemma LuhnCheckDigit(body: seq<int>) returns (c: int)
    requires |body| >= 12
    ensures 0 <= c <= 9
    ensures forall d :: 0 <= d <= 9 ==> (LuhnDigits(body + [d]) <==> d == c)
  {
    var n := |body| + 1;
    var s := Total(LuhnTerm(n % 2), body);
    c := (10 - s % 10) % 10;
    forall d | 0 <= d <= 9 ensures LuhnDigits(body + [d]) <==> d == c {
      assert (body + [d])[..n - 1] == body;
      assert LuhnSum(body + [d]) == s + d;
    }
  }

  /** Separators make no difference. */
  lemma SeparatorsIgnored(a: string, sep: char, b: string)
    requires !('0' <= sep <= '9')
    ensures DigitsOf(a + [sep] + b) == DigitsOf(a + b)
  {
    DigitsOfConcat(a + [sep], b);
    DigitsOfSnoc(a, sep);
    DigitsOfConcat(a, b);
    assert DigitsOf(a) + [] == DigitsOf(a);
  }

  // ------------------------------------------------------------------ SNILS

  function SnilsTerm(): (int, int) -> int {
    (i: int, n: int) => n * (9 - i)
  }

  function SnilsTotal(body: seq<int>): int {
    Total(SnilsTerm(), body)
  }

  /** The branches of the control number. */
  function SnilsCheck(total: int): int {
    if total < 100 then total
    else if total == 100 || total == 101 then 0
    else
      var check := total % 101;
      if check == 100 || check == 101 then 0 else check
  }

  predicate SnilsValid(snils: string) {
    var ds := DigitsOf(snils);
    |ds| == 11 && SnilsDigits(ds[..9], 10 * ds[9] + ds[10])
  }

  predicate SnilsDigits(body: seq<int>, control: int) {
    SnilsCheck(SnilsTotal(body)) == control
  }

  /** At most nine times the weights 9, 8, 7, ... of the positions used. */
  lemma {:induction false} SnilsBound(body: seq<int>)
    requires Digits(body) && |body| <= 9
    ensures 0 <= 2 * SnilsTotal(body) <= 9 * |body| * (19 - |body|)
    ensures SnilsTotal(body) <= 81 * |body| && SnilsTotal(body) <= 405
  {
    if body != [] {
      var n := |body| - 1;
      SnilsBound(body[..n]);
      var d := body[n];
      assert 0 <= d * (9 - n) <= 9 * (9 - n);
      assert n == 0 || n == 1 || n == 2 || n == 3 || n == 4 || n == 5 || n == 6 || n == 7 || n == 8;
    }
  }

  /** The branchy check is the remainder by 101, then by 100. */
  lemma SnilsIsMod(total: int)
    requires 0 <= total
    ensures SnilsCheck(total) == (total % 101) % 100
    ensures 0 <= SnilsCheck(total) <= 99
  {}

  /** Every nine-digit body has exactly one valid control number. */
  lemma SnilsControl(body: seq<int>) returns (c: int)
    requires Digits(body) && |body| == 9
    ensures 0 <= c <= 99
    ensures forall control :: SnilsDigits(body, control) <==> control == c
  {
    SnilsBound(body);
    c := SnilsCheck(SnilsTotal(body));
    SnilsIsMod(SnilsTotal(body));
  }

  /** On every string: valid means eleven digits of which the last two are the weighted sum of
      the first nine, mod 101 and then mod 100. */
  lemma SnilsIsStandard(snils: string)
    ensures SnilsValid(snils) <==>
              var ds := DigitsOf(snils);
              |ds| == 11
              && 10 * ds[9] + ds[10]
                 == ((9 * ds[0] + 8 * ds[1] + 7 * ds[2] + 6 * ds[3] + 5 * ds[4]
                      + 4 * ds[5] + 3 * ds[6] + 2 * ds[7] + ds[8]) % 101) % 100
  {
    var ds := DigitsOf(snils);
    if |ds| == 11 {
      SnilsWeights(ds[..9]);
      SnilsBound(ds[..9]);
      SnilsIsMod(SnilsTotal(ds[..9]));
    }
  }

  /** The weighted total: nine times the first digit, eight times the second, and so on. */
  lemma SnilsWeights(ds: seq<int>)
    requires |ds| == 9
    ensures SnilsTotal(ds) == 9 * ds[0] + 8 * ds[1] + 7 * ds[2] + 6 * ds[3] + 5 * ds[4]
                              + 4 * ds[5] + 3 * ds[6] + 2 * ds[7] + ds[8]
  {
    var t := SnilsTerm();
    assert ds[..9] == ds;
    TotalLast(t, ds, 8);
    TotalLast(t, ds, 7);
    TotalLast(t, ds, 6);
    TotalLast(t, ds, 5);
    TotalLast(t, ds, 4);
    TotalLast(t, ds, 3);
    TotalLast(t, ds, 2);
    TotalLast(t, ds, 1);
    TotalLast(t, ds, 0);
  }

  lemma TotalLast(term: (int, int) -> int, ds: seq<int>, k: nat)
    requires k < |ds|
    ensures Total(term, ds[..k + 1]) == Total(term, ds[..k]) + term(k, ds[k])
    ensures Total(term, ds[..0]) == 0
  {
    assert ds[..k + 1][..k] == ds[..k];
  }

  /** A text with nine digits is completed to a valid number by exactly one control number,
      however the two digits are written. */
  lemma SnilsCompletion(text: string) returns (c: int)
    requires |DigitsOf(text)| == 9
    ensures 0 <= c <= 99
    ensures forall control: string :: SnilsValid(text + control) <==>
              var d := DigitsOf(control); |d| == 2 && 10 * d[0] + d[1] == c
  {
    var body := DigitsOf(text);
    c := SnilsControl(body);
    forall control: string
      ensures SnilsValid(text + control) <==> var d := DigitsOf(control); |d| == 2 && 10 * d[0] + d[1] == c
    {
      DigitsOfConcat(text, control);
      Halves(body, DigitsOf(control));
    }
  }

  lemma Halves(a: seq<int>, b: seq<int>)
    ensures (a + b)[..|a|] == a && forall k :: 0 <= k < |b| ==> (a + b)[|a| + k] == b[k]
  {}

  /** Totals less than 100 apart share a control number when they are equal, or neighbours
      across the residues 100 and 0. */
  lemma SameControl(t: int, u: int)
    requires 0 <= t && 0 <= u && -100 < t - u < 100
    ensures SnilsCheck(t) == SnilsCheck(u) <==> t == u || (u == t + 1 && t % 101 == 100) || (t == u + 1 && u % 101 == 100)
  {
    SnilsIsMod(t);
    SnilsIsMod(u);
  }

  /** A single-digit change in the body goes undetected exactly at the last position, where
      the weight is 1, by a step of one between totals of residue 100 and 0. */
  lemma SnilsSubstitution(body: seq<int>, i: int, d: int, control: int)
    requires Digits(body) && |body| == 9 && SnilsDigits(body, control)
    requires 0 <= i < 9 && 0 <= d <= 9 && d != body[i]
    ensures SnilsDigits(body[i := d], control)
            <==> i == 8 && ((d == body[8] + 1 && SnilsTotal(body) % 101 == 100)
                            || (d == body[8] - 1 && SnilsTotal(body) % 101 == 0))
  {
    var t, u := SnilsTotal(body), SnilsTotal(body[i := d]);
    TotalUpdate(SnilsTerm(), body, i, d);
    SnilsBound(body);
    SnilsBound(body[i := d]);
    var w, e := 9 - i, d - body[i];
    assert u - t == e * w by { assert d * w - body[i] * w == (d - body[i]) * w; }
    StepBound(e, w);
    SameControl(t, u);
  }

  lemma StepBound(e: int, w: int)
    requires 1 <= w <= 9 && -9 <= e <= 9 && e != 0
    ensures -81 <= e * w <= 81
    ensures e * w == 1 <==> e == 1 && w == 1
    ensures e * w == -1 <==> e == -1 && w == 1
    ensures e * w != 0
  {
    if e > 0 { assert w <= e * w <= 9 * w && e <= e * w; } else { assert -9 * w <= e * w <= -w && e * w <= e; }
  }

  /** A swap of neighbours goes undetected exactly when the digits are equal, or differ by
      one across the residues 100 and 0. */
  lemma SnilsSwap(body: seq<int>, i: int, control: int)
    requires Digits(body) && |body| == 9 && SnilsDigits(body, control) && 0 <= i < 8
    ensures SnilsDigits(Swapped(body, i), control)
            <==> body[i] == body[i + 1]
                 || (body[i + 1] == body[i] + 1 && SnilsTotal(body) % 101 == 100)
                 || (body[i + 1] == body[i] - 1 && SnilsTotal(body) % 101 == 0)
  {
    var t, u := SnilsTotal(body), SnilsTotal(Swapped(body, i));
    TotalSwap(SnilsTerm(), body, i);
    SnilsBound(body);
    SnilsBound(Swapped(body, i));
    var a, b, w := body[i], body[i + 1], 9 - i;
    SwapWeights(a, b, w);
    assert u - t == b - a;
    SameControl(t, u);
  }

  lemma SwapWeights(a: int, b: int, w: int)
    ensures b * w + a * (w - 1) - a * w - b * (w - 1) == b - a
  {}
}
