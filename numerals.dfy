/** The numbering systems the formatters share: Roman numerals by greedy
    subtraction over the thirteen-entry value table, and bijective base-26
    letters (A..Z, AA, AB, ...). */
module Numerals {
  import opened Common

  const RomanValues: seq<nat> := [1000, 900, 500, 400, 100, 90, 50, 40, 10, 9, 5, 4, 1]
  const RomanSymbols: seq<string> := ["M", "CM", "D", "CD", "C", "XC", "L", "XL", "X", "IX", "V", "IV", "I"]

  /** Greedy conversion of `n` using the table entries from index `i` on. */
  function RomanFrom(n: nat, i: nat): string
    requires i <= 13
    decreases 13 - i, n
  {
    if i == 13 then ""
    else if n >= RomanValues[i] then RomanSymbols[i] + RomanFrom(n - RomanValues[i], i)
    else RomanFrom(n, i + 1)
  }

  /** Upper-case Roman numeral of `n`; 0 gives the empty string. */
  function Roman(n: nat): string
  {
    RomanFrom(n, 0)
  }

  /** What a count-based pass over the table (`count = n // value`, append
      `numeral * count` when the count is non-zero, subtract) yields for any
      integer: a negative input appends nothing at the first entry, whose
      floor quotient is negative, and continues with its remainder modulo
      1000. */
  function RomanOfInt(n: int): string
  {
    if n >= 0 then Roman(n) else RomanFrom(n % 1000, 1)
  }

  /** Quotient and remainder are determined by the division equation. */
  lemma DivModUnique(a: int, v: int, q: int, r: int)
    requires v > 0 && 0 <= r < v && a == v * q + r
    ensures a / v == q && a % v == r
  {
    var q' := a / v;
    var r' := a % v;
    if q > q' {
      MulPos(v, q - q' - 1);
      assert false;
    }
    if q < q' {
      MulPos(v, q' - q - 1);
      assert false;
    }
  }

  lemma MulPos(x: int, y: int)
    requires x >= 0 && y >= 0
    ensures x * y >= 0
  {
  }

  /** Quotient and remainder of a non-negative number. */
  lemma DivModFacts(n: int, v: int)
    requires n >= 0 && v >= 1
    ensures n == n % v + (n / v) * v && 0 <= n % v < v && n / v >= 0
  {
  }

  /** One subtraction in a loop that runs `q` times, subtracting `v` each
      time, down to `rest`. */
  lemma TakeOne(n: int, k: nat, q: nat, v: nat, rest: int)
    requires v >= 1 && k < q && n == rest + (q - k) * v && rest >= 0
    ensures n >= v && n - v == rest + (q - (k + 1)) * v
  {
    assert (q - k) * v == (q - (k + 1)) * v + v;
    assert (q - (k + 1)) * v >= 0;
  }

  /** One step of the table loop: all copies of entry `i`, then the rest. */
  lemma RomanFromStep(n: nat, i: nat)
    requires i < 13
    ensures RomanFrom(n, i) == Repeat(RomanSymbols[i], n / RomanValues[i]) + RomanFrom(n % RomanValues[i], i + 1)
  {
    var v := RomanValues[i];
    assert v >= 1;
    var q, r := n / v, n % v;
    assert n == q * v + r;
    RomanRun(n, i, q, r);
  }

  /** Entries whose value exceeds `n` are skipped. */
  lemma RomanFromSkip(n: nat, i: nat, j: nat)
    requires i <= j <= 13
    requires forall k :: i <= k < j ==> n < RomanValues[k]
    ensures RomanFrom(n, i) == RomanFrom(n, j)
    decreases j - i
  {
    if i < j {
      RomanFromSkip(n, i + 1, j);
    }
  }

  const Hundreds: seq<string> := ["", "C", "CC", "CCC", "CD", "D", "DC", "DCC", "DCCC", "CM"]
  const Tens: seq<string> := ["", "X", "XX", "XXX", "XL", "L", "LX", "LXX", "LXXX", "XC"]
  const Ones: seq<string> := ["", "I", "II", "III", "IV", "V", "VI", "VII", "VIII", "IX"]

  /** The standard digit-by-digit form of a Roman numeral. */
  function RomanDigits(n: nat): string
  {
    Repeat("M", n / 1000) + Hundreds[n / 100 % 10] + Tens[n / 10 % 10] + Ones[n % 10]
  }

  lemma RepeatSmall(s: string)
    ensures Repeat(s, 0) == ""
    ensures Repeat(s, 1) == s
    ensures Repeat(s, 2) == s + s
    ensures Repeat(s, 3) == s + s + s
  {
    assert Repeat(s, 1) == s + Repeat(s, 0);
    assert Repeat(s, 2) == s + Repeat(s, 1);
    assert Repeat(s, 3) == s + Repeat(s, 2);
  }

  /** A decimal digit `d` written with the symbols for nine, five, four and
      one times the digit's place value. */
  function DigitForm(nine: string, five: string, four: string, one: string, d: nat): string
  {
    if d == 9 then nine
    else if d >= 5 then five + Repeat(one, d - 5)
    else if d == 4 then four
    else Repeat(one, d)
  }

  /** The four table entries from index `b` on (values 9s, 5s, 4s and s)
      write the digit `d` of `m = d*s + r`. */
  lemma RomanGroup(m: nat, b: nat, s: nat, d: nat, r: nat)
    requires b + 4 <= 13
    requires RomanValues[b] == 9 * s && RomanValues[b + 1] == 5 * s
    requires RomanValues[b + 2] == 4 * s && RomanValues[b + 3] == s
    requires d < 10 && r < s && m == d * s + r
    ensures RomanFrom(m, b) == DigitForm(RomanSymbols[b], RomanSymbols[b + 1], RomanSymbols[b + 2], RomanSymbols[b + 3], d) + RomanFrom(r, b + 4)
  {
    if d == 9 {
      GroupNine(m, b, s, r);
    } else if d >= 5 {
      var e: nat := d - 5;
      assert m - 5 * s == e * s + r by {
        if d == 5 { } else if d == 6 { } else if d == 7 { } else { }
      }
      GroupFive(m, b, s, e, r);
    } else if d == 4 {
      GroupFour(m, b, s, r);
    } else {
      GroupOne(m, b, s, d, r);
    }
  }

  lemma GroupNine(m: nat, b: nat, s: nat, r: nat)
    requires b + 4 <= 13
    requires RomanValues[b] == 9 * s && RomanValues[b + 1] == 5 * s
    requires RomanValues[b + 2] == 4 * s && RomanValues[b + 3] == s
    requires r < s && m == 9 * s + r
    ensures RomanFrom(m, b) == RomanSymbols[b] + RomanFrom(r, b + 4)
  {
    assert RomanFrom(m, b) == RomanSymbols[b] + RomanFrom(r, b);
    assert RomanFrom(r, b) == RomanFrom(r, b + 1);
    assert RomanFrom(r, b + 1) == RomanFrom(r, b + 2);
    assert RomanFrom(r, b + 2) == RomanFrom(r, b + 3);
    assert RomanFrom(r, b + 3) == RomanFrom(r, b + 4);
  }

  lemma GroupFive(m: nat, b: nat, s: nat, e: nat, r: nat)
    requires b + 4 <= 13
    requires RomanValues[b] == 9 * s && RomanValues[b + 1] == 5 * s
    requires RomanValues[b + 2] == 4 * s && RomanValues[b + 3] == s
    requires e < 4 && r < s && m - 5 * s == e * s + r && m >= 5 * s
    ensures RomanFrom(m, b) == RomanSymbols[b + 1] + Repeat(RomanSymbols[b + 3], e) + RomanFrom(r, b + 4)
  {
    var m' := m - 5 * s;
    assert m' < 4 * s by {
      if e == 0 { } else if e == 1 { } else if e == 2 { } else { }
    }
    assert RomanFrom(m, b) == RomanFrom(m, b + 1);
    assert RomanFrom(m, b + 1) == RomanSymbols[b + 1] + RomanFrom(m', b + 1);
    assert RomanFrom(m', b + 1) == RomanFrom(m', b + 2);
    assert RomanFrom(m', b + 2) == RomanFrom(m', b + 3);
    RomanRun(m', b + 3, e, r);
  }

  lemma GroupFour(m: nat, b: nat, s: nat, r: nat)
    requires b + 4 <= 13
    requires RomanValues[b] == 9 * s && RomanValues[b + 1] == 5 * s
    requires RomanValues[b + 2] == 4 * s && RomanValues[b + 3] == s
    requires r < s && m == 4 * s + r
    ensures RomanFrom(m, b) == RomanSymbols[b + 2] + RomanFrom(r, b + 4)
  {
    assert RomanFrom(m, b) == RomanFrom(m, b + 1);
    assert RomanFrom(m, b + 1) == RomanFrom(m, b + 2);
    assert RomanFrom(m, b + 2) == RomanSymbols[b + 2] + RomanFrom(r, b + 2);
    assert RomanFrom(r, b + 2) == RomanFrom(r, b + 3);
    assert RomanFrom(r, b + 3) == RomanFrom(r, b + 4);
  }

  lemma GroupOne(m: nat, b: nat, s: nat, d: nat, r: nat)
    requires b + 4 <= 13
    requires RomanValues[b] == 9 * s && RomanValues[b + 1] == 5 * s
    requires RomanValues[b + 2] == 4 * s && RomanValues[b + 3] == s
    requires d < 4 && r < s && m == d * s + r
    ensures RomanFrom(m, b) == Repeat(RomanSymbols[b + 3], d) + RomanFrom(r, b + 4)
  {
    assert m < 4 * s by {
      if d == 0 { } else if d == 1 { } else if d == 2 { } else { }
    }
    assert RomanFrom(m, b) == RomanFrom(m, b + 1);
    assert RomanFrom(m, b + 1) == RomanFrom(m, b + 2);
    assert RomanFrom(m, b + 2) == RomanFrom(m, b + 3);
    RomanRun(m, b + 3, d, r);
  }

  /** The digit tables agree with the symbol pattern of every digit. */
  lemma DigitTables(d: nat)
    requires d < 10
    ensures Hundreds[d] == DigitForm("CM", "D", "CD", "C", d)
    ensures Tens[d] == DigitForm("XC", "L", "XL", "X", d)
    ensures Ones[d] == DigitForm("IX", "V", "IV", "I", d)
  {
    RepeatSmall("C");
    RepeatSmall("X");
    RepeatSmall("I");
  }

  /** `k` copies of entry `i` followed by what remains. */
  lemma {:induction false} RomanRun(m: nat, i: nat, k: nat, r: nat)
    requires i < 13 && r < RomanValues[i] && m == k * RomanValues[i] + r
    ensures RomanFrom(m, i) == Repeat(RomanSymbols[i], k) + RomanFrom(r, i + 1)
    decreases k
  {
    if k == 0 {
      assert m == r;
    } else {
      var v := RomanValues[i];
      RunStep(m, k, v, r);
      RomanRun(m - v, i, k - 1, r);
      RunCons(m, i, k, r);
    }
  }

  /** One more copy of entry `i` in front of a run of `k - 1`. */
  lemma RunCons(m: nat, i: nat, k: nat, r: nat)
    requires i < 13 && k > 0 && m >= RomanValues[i]
    requires RomanFrom(m - RomanValues[i], i) == Repeat(RomanSymbols[i], k - 1) + RomanFrom(r, i + 1)
    ensures RomanFrom(m, i) == Repeat(RomanSymbols[i], k) + RomanFrom(r, i + 1)
  {
    var sym, run, rest := RomanSymbols[i], Repeat(RomanSymbols[i], k - 1), RomanFrom(r, i + 1);
    assert RomanFrom(m, i) == sym + (run + rest);
    assert Repeat(sym, k) == sym + run;
    assert sym + (run + rest) == (sym + run) + rest;
  }

  /** Taking one of `k` copies of `v` off `m = k*v + r`. */
  lemma RunStep(m: nat, k: nat, v: nat, r: nat)
    requires k > 0 && m == k * v + r
    ensures m >= v && m - v == (k - 1) * v + r
  {
    assert k * v == (k - 1) * v + v;
    MulPos(k - 1, v);
  }

  /** The greedy table conversion equals the digit-by-digit definition. */
  lemma RomanIsDigitwise(n: nat)
    ensures Roman(n) == RomanDigits(n)
  {
    var m := n % 1000;
    ThousandsStep(n);
    RomanBelowThousand(m);
    DecimalDigits(n);
    var ms, h, d, e := Repeat("M", n / 1000), Hundreds[n / 100 % 10], Tens[n / 10 % 10], Ones[n % 10];
    assert RomanFrom(m, 1) == h + d + e;
    assert ms + (h + d + e) == ms + h + d + e;
  }

  /** The first table entry writes the thousands as a run of "M". */
  lemma ThousandsStep(n: nat)
    ensures Roman(n) == Repeat("M", n / 1000) + RomanFrom(n % 1000, 1)
  {
    RomanFromStep(n, 0);
    assert RomanValues[0] == 1000 && RomanSymbols[0] == "M";
  }

  /** Below one thousand the table from "CM" on writes the three digits. */
  lemma RomanBelowThousand(m: nat)
    requires m < 1000
    ensures RomanFrom(m, 1) == Hundreds[m / 100] + Tens[m % 100 / 10] + Ones[m % 10]
  {
    var t := m % 100;
    var o := t % 10;
    HundredsGroup(m);
    TensGroup(t);
    OnesGroup(o);
    LastDigit(m);
    var h, d, e := Hundreds[m / 100], Tens[t / 10], Ones[o];
    assert RomanFrom(m, 1) == h + (d + e);
    assert h + (d + e) == h + d + e;
  }

  lemma LastDigit(m: nat)
    ensures m % 100 % 10 == m % 10
  {
    DivModUnique(m, 10, 10 * (m / 100) + m % 100 / 10, m % 100 % 10);
  }

  lemma HundredsGroup(m: nat)
    requires m < 1000
    ensures RomanFrom(m, 1) == Hundreds[m / 100] + RomanFrom(m % 100, 5)
  {
    RomanGroup(m, 1, 100, m / 100, m % 100);
    DigitTables(m / 100);
  }

  lemma TensGroup(t: nat)
    requires t < 100
    ensures RomanFrom(t, 5) == Tens[t / 10] + RomanFrom(t % 10, 9)
  {
    RomanGroup(t, 5, 10, t / 10, t % 10);
    DigitTables(t / 10);
  }

  lemma OnesGroup(o: nat)
    requires o < 10
    ensures RomanFrom(o, 9) == Ones[o]
  {
    RomanGroup(o, 9, 1, o, 0);
    DigitTables(o);
    assert RomanFrom(0, 13) == "";
  }

  lemma DecimalDigits(n: nat)
    ensures n % 1000 / 100 == n / 100 % 10
    ensures n % 1000 % 100 / 10 == n / 10 % 10
    ensures n % 1000 % 10 == n % 10
  {
    var m := n % 1000;
    var t := m % 100;
    var o := t % 10;
    var h, d1 := m / 100, t / 10;
    var q := n / 1000;
    assert m == 100 * h + t && t == 10 * d1 + o && n == 1000 * q + m;
    DivModUnique(n, 100, 10 * q + h, t);
    DivModUnique(10 * q + h, 10, q, h);
    DivModUnique(n, 10, 100 * q + 10 * h + d1, o);
    DivModUnique(100 * q + 10 * h + d1, 10, 10 * q + h, d1);
    DivModUnique(m, 10, 10 * h + d1, o);
  }

  /** Roman numerals use only the seven upper-case letters I V X L C D M. */
  predicate RomanLetters(s: string)
  {
    forall i :: 0 <= i < |s| ==> s[i] in "IVXLCDM"
  }

  lemma RomanLettersAppend(a: string, b: string)
    requires RomanLetters(a) && RomanLetters(b)
    ensures RomanLetters(a + b)
  {
    assert forall i :: 0 <= i < |a + b| ==> (a + b)[i] == (if i < |a| then a[i] else b[i - |a|]);
  }

  lemma {:induction false} RomanFromLetters(n: nat, i: nat)
    requires i <= 13
    ensures RomanLetters(RomanFrom(n, i))
    decreases 13 - i, n
  {
    if i < 13 {
      if n >= RomanValues[i] {
        RomanFromLetters(n - RomanValues[i], i);
        RomanLettersAppend(RomanSymbols[i], RomanFrom(n - RomanValues[i], i));
      } else {
        RomanFromLetters(n, i + 1);
      }
    }
  }

  lemma RomanZero()
    ensures Roman(0) == ""
  {
    RomanFromSkip(0, 0, 13);
  }

  /** Bijective base-26: 1 -> A, 26 -> Z, 27 -> AA; 0 gives the empty string. */
  function Alpha(n: nat): (r: string)
    ensures |r| == 0 <==> n == 0
    ensures forall i :: 0 <= i < |r| ==> 'A' <= r[i] <= 'Z'
  {
    if n == 0 then "" else Alpha((n - 1) / 26) + [('A' as int + (n - 1) % 26) as char]
  }

  /** The letter form of any integer: nothing for zero and negatives. */
  function AlphaOfInt(n: int): string
  {
    if n > 0 then Alpha(n) else ""
  }

  predicate AllCapitals(s: string)
  {
    forall i :: 0 <= i < |s| ==> 'A' <= s[i] <= 'Z'
  }

  /** The number a string of capital letters denotes in bijective base 26. */
  function AlphaValue(s: string): nat
    requires AllCapitals(s)
  {
    if s == [] then 0 else 26 * AlphaValue(s[..|s| - 1]) + (s[|s| - 1] as int - 'A' as int + 1)
  }

  lemma {:induction false} AlphaValueOfAlpha(n: nat)
    ensures AlphaValue(Alpha(n)) == n
  {
    if n > 0 {
      var r := Alpha(n);
      assert r[..|r| - 1] == Alpha((n - 1) / 26);
      AlphaValueOfAlpha((n - 1) / 26);
    }
  }

  lemma {:induction false} AlphaOfAlphaValue(s: string)
    requires AllCapitals(s)
    ensures Alpha(AlphaValue(s)) == s
  {
    if s != [] {
      var t := s[..|s| - 1];
      var v := AlphaValue(s);
      assert v >= 1;
      assert (v - 1) / 26 == AlphaValue(t);
      assert (v - 1) % 26 == s[|s| - 1] as int - 'A' as int;
      AlphaOfAlphaValue(t);
      assert s == t + [s[|s| - 1]];
    }
  }

  /** Every string of capitals is the letter form of exactly one number. */
  lemma AlphaInjective(a: nat, b: nat)
    requires Alpha(a) == Alpha(b)
    ensures a == b
  {
    AlphaValueOfAlpha(a);
    AlphaValueOfAlpha(b);
  }

  lemma AlphaExamples()
    ensures Alpha(1) == "A" && Alpha(26) == "Z" && Alpha(27) == "AA"
    ensures Alpha(52) == "AZ" && Alpha(53) == "BA"
  {
    assert Alpha(1) == Alpha(0) + "A";
    assert Alpha(2) == Alpha(0) + "B";
    assert Alpha(26) == Alpha(0) + "Z";
    assert Alpha(27) == Alpha(1) + "A";
    assert Alpha(52) == Alpha(1) + "Z";
    assert Alpha(53) == Alpha(2) + "A";
  }
}
