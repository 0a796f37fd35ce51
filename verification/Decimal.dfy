/**
 Unsigned decimal strings: the form in which Fabric's JSON carries config sequences and
 element versions, and the string comparison by which the submission script decides that a
 live sequence is newer than the reviewed one.
 */
module Decimal {

  predicate IsDigit(c: char) { '0' <= c <= '9' }

  predicate Digits(s: string) {
    forall c <- s :: IsDigit(c)
  }

  /** Digits without a superfluous leading zero, as configtxlator prints them. */
  predicate Canonical(s: string) {
    Digits(s) && s != "" && (|s| > 1 ==> s[0] != '0')
  }

  function DigitValue(c: char): nat
    requires IsDigit(c)
  {
    c as int - '0' as int
  }

  function Pow10(n: nat): (p: nat)
    ensures p > 0
  {
    if n == 0 then 1 else 10 * Pow10(n - 1)
  }

  function Value(s: string): nat
    requires Digits(s)
  {
    if s == "" then 0 else DigitValue(s[0]) * Pow10(|s| - 1) + Value(s[1..])
  }

  /** strconv.ParseUint(s, 10, 64) succeeds. Leading zeros are accepted. */
  predicate ParsesAsUint64(s: string) {
    Digits(s) && s != "" && Value(s) < 0x1_0000_0000_0000_0000
  }

  function Print(n: nat): (s: string)
    ensures Canonical(s)
  {
    if n < 10 then [('0' as int + n) as char]
    else Print(n / 10) + [('0' as int + n % 10) as char]
  }

  /** Code point order on strings, as jq compares them. */
  predicate LexGreater(a: string, b: string) {
    a != "" && (b == "" || a[0] > b[0] || (a[0] == b[0] && LexGreater(a[1..], b[1..])))
  }

  /** The script's test: longer, or as long and lexicographically greater. */
  predicate ScriptGreater(a: string, b: string) {
    |a| > |b| || (|a| == |b| && LexGreater(a, b))
  }

  lemma LeadingDigit(x: nat, y: nat, p: nat, u: nat, v: nat)
    requires x > y && v < p
    ensures x * p + u > y * p + v
  {
    assert x * p == (x - y - 1) * p + p + y * p;
    assert (x - y - 1) * p >= 0;
  }

  lemma {:induction false} ValueBelowPow10(s: string)
    requires Digits(s)
    ensures Value(s) < Pow10(|s|)
  {
    if s != "" {
      ValueBelowPow10(s[1..]);
      LeadingDigit(10, DigitValue(s[0]), Pow10(|s| - 1), 0, Value(s[1..]));
    }
  }

  lemma {:induction false} CanonicalAtLeast(s: string)
    requires Canonical(s) && |s| > 1
    ensures Value(s) >= Pow10(|s| - 1)
  {
    assert DigitValue(s[0]) >= 1;
    assert DigitValue(s[0]) * Pow10(|s| - 1) >= Pow10(|s| - 1);
  }

  lemma {:induction false} Pow10Monotone(m: nat, n: nat)
    requires m <= n
    ensures Pow10(m) <= Pow10(n)
  {
    if m < n {
      Pow10Monotone(m, n - 1);
    }
  }

  /** On digit strings of one length the lexicographic order is the numeric order. */
  lemma {:induction false} SameLengthOrder(a: string, b: string)
    requires Digits(a) && Digits(b) && |a| == |b|
    ensures LexGreater(a, b) <==> Value(a) > Value(b)
    ensures Value(a) == Value(b) ==> a == b
  {
    if a != "" {
      SameLengthOrder(a[1..], b[1..]);
      ValueBelowPow10(a[1..]);
      ValueBelowPow10(b[1..]);
      var p := Pow10(|a| - 1);
      var x, y := DigitValue(a[0]), DigitValue(b[0]);
      var u, v := Value(a[1..]), Value(b[1..]);
      assert Value(a) == x * p + u && Value(b) == y * p + v;
      if x > y {
        LeadingDigit(x, y, p, u, v);
      } else if x < y {
        LeadingDigit(y, x, p, v, u);
      } else {
        assert a == [a[0]] + a[1..] && b == [b[0]] + b[1..];
      }
    }
  }

  /** A canonical decimal exceeds every shorter digit string. */
  lemma {:induction false} LongerIsGreater(a: string, b: string)
    requires Canonical(a) && Digits(b) && b != "" && |a| > |b|
    ensures Value(a) > Value(b)
  {
    CanonicalAtLeast(a);
    ValueBelowPow10(b);
    Pow10Monotone(|b|, |a| - 1);
  }

  /**
   What the script's test decides for a live sequence `a`, which Fabric prints canonically,
   and any digit string `b` that a plan may carry: a positive answer is always numerically
   right, and a greater sequence is missed exactly if `b` is longer.
   */
  lemma ScriptGreaterExactly(a: string, b: string)
    requires Canonical(a) && Digits(b) && b != ""
    ensures ScriptGreater(a, b) <==> Value(a) > Value(b) && |a| >= |b|
  {
    if |a| > |b| {
      LongerIsGreater(a, b);
    } else if |a| == |b| {
      SameLengthOrder(a, b);
    }
  }

  /** On decimals without leading zeros the test is the numeric order. */
  lemma ScriptGreaterIsNumeric(a: string, b: string)
    requires Canonical(a) && Canonical(b)
    ensures ScriptGreater(a, b) <==> Value(a) > Value(b)
  {
    ScriptGreaterExactly(a, b);
    if |b| > |a| {
      LongerIsGreater(b, a);
    }
  }

  /** A plan sequence with a leading zero, which the planner accepts, hides a greater live sequence. */
  lemma LeadingZeroHidesGreater()
    ensures Canonical("9") && ParsesAsUint64("07")
    ensures Value("9") > Value("07") && !ScriptGreater("9", "07")
  {
    assert Value("07") == DigitValue('0') * Pow10(1) + Value("7") by { assert "07"[1..] == "7"; }
    assert Value("7") == 7 * Pow10(0) + Value("") by { assert "7"[1..] == ""; }
    assert Value("9") == 9 * Pow10(0) + Value("") by { assert "9"[1..] == ""; }
  }

  lemma {:induction false} ValueOfAppend(s: string, c: char)
    requires Digits(s) && IsDigit(c)
    ensures Digits(s + [c])
    ensures Value(s + [c]) == 10 * Value(s) + DigitValue(c)
  {
    var t := s + [c];
    if s == "" {
      assert t[1..] == "";
    } else {
      assert t[1..] == s[1..] + [c];
      ValueOfAppend(s[1..], c);
      assert Pow10(|t| - 1) == 10 * Pow10(|s| - 1);
      assert DigitValue(s[0]) * (10 * Pow10(|s| - 1)) == 10 * (DigitValue(s[0]) * Pow10(|s| - 1));
    }
  }

  /** Printing a number and reading it back is the identity. */
  lemma {:induction false} PrintRoundTrip(n: nat)
    ensures Value(Print(n)) == n
  {
    if n < 10 {
      assert Print(n)[1..] == "";
    } else {
      PrintRoundTrip(n / 10);
      ValueOfAppend(Print(n / 10), ('0' as int + n % 10) as char);
    }
  }
}
