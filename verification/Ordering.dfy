/** The orders on texts, dates and document numbers. */
module Ordering {
  import opened Wrappers

  /** `a.cmp(b)` is not greater. */
  predicate LexLeq(a: string, b: string) {
    a == "" || (b != "" && (a[0] < b[0] || (a[0] == b[0] && LexLeq(a[1..], b[1..]))))
  }

  lemma {:induction false} LexTotal(a: string, b: string)
    ensures LexLeq(a, b) || LexLeq(b, a)
  {
    if a == "" || b == "" {
    } else {
      LexTotal(a[1..], b[1..]);
    }
  }

  lemma {:induction false} LexTransitive(a: string, b: string, c: string)
    requires LexLeq(a, b) && LexLeq(b, c)
    ensures LexLeq(a, c)
  {
    if a == "" || a[0] != b[0] || b[0] != c[0] {
    } else {
      LexTransitive(a[1..], b[1..], c[1..]);
    }
  }

  lemma {:induction false} LexAntisymmetric(a: string, b: string)
    requires LexLeq(a, b) && LexLeq(b, a)
    ensures a == b
  {
    if a == "" {
    } else {
      LexAntisymmetric(a[1..], b[1..]);
      assert a == [a[0]] + a[1..] && b == [b[0]] + b[1..];
    }
  }

  /** `a` ends before `b` does, or has the smaller character where they first differ. */
  ghost predicate ComesFirst(a: string, b: string) {
    a < b || exists k :: 0 <= k < |a| && k < |b| && a[..k] == b[..k] && a[k] < b[k]
  }

  lemma {:induction false} LexIff(a: string, b: string)
    ensures LexLeq(a, b) <==> a == b || ComesFirst(a, b)
    decreases |a|
  {
    if a == "" || b == "" {
    } else if a[0] != b[0] {
      if a[0] < b[0] {
        assert a[..0] == b[..0];
      }
    } else {
      LexIff(a[1..], b[1..]);
      assert a == [a[0]] + a[1..] && b == [b[0]] + b[1..];
      FirstDifference(a, b);
    }
  }

  lemma FirstDifference(a: string, b: string)
    requires a != "" && b != "" && a[0] == b[0]
    ensures ComesFirst(a, b) <==> ComesFirst(a[1..], b[1..])
  {
    var c, d := a[1..], b[1..];
    assert a == [a[0]] + c && b == [b[0]] + d;
    if k :| 0 <= k < |a| && k < |b| && a[..k] == b[..k] && a[k] < b[k] {
      assert c[..k - 1] == a[..k][1..] && d[..k - 1] == b[..k][1..] && c[k - 1] < d[k - 1];
    }
    if k :| 0 <= k < |c| && k < |d| && c[..k] == d[..k] && c[k] < d[k] {
      assert a[..k + 1] == [a[0]] + c[..k] && b[..k + 1] == [b[0]] + d[..k] && a[k + 1] < b[k + 1];
    }
  }

  /** Dates ascending, missing ones last. */
  predicate DateLeq(a: string, b: string) {
    if a == "" || b == "" then b == "" else LexLeq(a, b)
  }

  lemma DateTotal(a: string, b: string)
    ensures DateLeq(a, b) || DateLeq(b, a)
  {
    LexTotal(a, b);
  }

  lemma DateTransitive(a: string, b: string, c: string)
    ensures DateLeq(a, b) && DateLeq(b, c) ==> DateLeq(a, c)
  {
    hide LexLeq;
    if LexLeq(a, b) && LexLeq(b, c) {
      LexTransitive(a, b, c);
    }
  }

  lemma DateAntisymmetric(a: string, b: string)
    ensures DateLeq(a, b) && DateLeq(b, a) ==> a == b
  {
    hide LexLeq;
    if LexLeq(a, b) && LexLeq(b, a) {
      LexAntisymmetric(a, b);
    }
  }

  // ---- document numbers ----

  predicate IsDigit(c: char) { '0' <= c <= '9' }

  function DecimalValue(digits: string): nat
    requires forall c | c in digits :: IsDigit(c)
  {
    if digits == "" then 0 else
    assert IsDigit(digits[|digits| - 1]);
    10 * DecimalValue(digits[..|digits| - 1]) + (digits[|digits| - 1] as int - '0' as int)
  }

  const U64_RANGE := 0x1_0000_0000_0000_0000

  /** `s.parse::<u64>()`: digits with an optional plus sign, and no overflow. */
  function ParseU64(s: string): Option<nat> {
    var digits := if s != "" && s[0] == '+' then s[1..] else s;
    if digits == "" || exists c | c in digits :: !IsDigit(c) then None
    else if DecimalValue(digits) < U64_RANGE then Some(DecimalValue(digits))
    else None
  }

  predicate IsNumber(s: string) { ParseU64(s).Some? }

  /** Two numbers by value, anything else as text. */
  predicate NaturalLeq(a: string, b: string) {
    if IsNumber(a) && IsNumber(b) then ParseU64(a).value <= ParseU64(b).value else LexLeq(a, b)
  }

  lemma NaturalTotal(a: string, b: string)
    ensures NaturalLeq(a, b) || NaturalLeq(b, a)
  {
    LexTotal(a, b);
  }

  /** `z` is no number and stands, as text, strictly between two numbers whose values are the other way round. */
  predicate Straddled(x: string, y: string, z: string) {
    IsNumber(x) && IsNumber(y) && !IsNumber(z) && ParseU64(x).value <= ParseU64(y).value
    && LexLeq(y, z) && LexLeq(z, x)
  }

  lemma NaturalTransitiveUnless(x: string, y: string, z: string)
    requires NaturalLeq(x, y) && NaturalLeq(y, z) && !NaturalLeq(x, z)
    ensures Straddled(x, y, z) || Straddled(y, z, x) || Straddled(z, x, y)
  {
    hide ParseU64, LexLeq;
    LexTotal(x, z);
    if LexLeq(x, y) && LexLeq(y, z) {
      LexTransitive(x, y, z);
    }
  }

  lemma StraddledBreaks(x: string, y: string, z: string)
    requires Straddled(x, y, z)
    ensures NaturalLeq(x, y) && NaturalLeq(y, z) && !NaturalLeq(x, z)
  {
    hide ParseU64, LexLeq;
    if LexLeq(x, z) {
      LexAntisymmetric(x, z);
    }
  }

  /** "10" < "1a" < "9" < "10" */
  lemma DocumentNumbersInACircle()
    ensures Straddled("9", "10", "1a")
    ensures !NaturalLeq("1a", "10") && !NaturalLeq("9", "1a") && !NaturalLeq("10", "9")
  {
    assert 'a' in "1a" && !IsDigit('a') && "1a"[0] != '+';
    assert DecimalValue("9") == 9 by {
      assert "9"[..0] == "";
    }
    assert DecimalValue("10") == 10 by {
      assert "10"[..1] == "1";
      assert "1"[..0] == "";
    }
    assert forall c | c in "10" :: IsDigit(c);
    assert ParseU64("9") == Some(9) && ParseU64("10") == Some(10) && ParseU64("1a") == None;
    assert "1a"[1..] == "a" && "10"[1..] == "0";
  }

  /** A number in decimal, without leading zeros. */
  function Decimal(n: nat): string {
    (if n < 10 then "" else Decimal(n / 10)) + [(n % 10 + 48) as char]
  }

  predicate AllZeros(s: string) { forall c | c in s :: c == '0' }

  predicate AllDigits(s: string) { forall c | c in s :: IsDigit(c) }

  lemma ValueOfMore(s: string, c: char)
    requires AllDigits(s) && IsDigit(c)
    ensures AllDigits(s + [c]) && DecimalValue(s + [c]) == 10 * DecimalValue(s) + (c as int - 48)
  {
    assert (s + [c])[..|s|] == s;
  }

  lemma {:induction false} ValueOfZeros(zeros: string)
    requires AllZeros(zeros)
    ensures AllDigits(zeros) && DecimalValue(zeros) == 0
    decreases |zeros|
  {
    if zeros == "" {
    } else {
      var n := |zeros| - 1;
      assert zeros[n] in zeros && forall c | c in zeros[..n] :: c in zeros;
      ValueOfZeros(zeros[..n]);
      assert zeros == zeros[..n] + [zeros[n]];
    }
  }

  lemma {:induction false} ValueOfDecimal(zeros: string, n: nat)
    requires AllZeros(zeros)
    ensures AllDigits(zeros + Decimal(n)) && DecimalValue(zeros + Decimal(n)) == n
    decreases n
  {
    hide DecimalValue;
    var last := (n % 10 + 48) as char;
    if n < 10 {
      ValueOfZeros(zeros);
      ValueOfMore(zeros, last);
      assert zeros + Decimal(n) == zeros + [last];
    } else {
      ValueOfDecimal(zeros, n / 10);
      ValueOfMore(zeros + Decimal(n / 10), last);
      assert zeros + Decimal(n) == zeros + Decimal(n / 10) + [last];
    }
  }

  lemma DecimalOfMore(n: nat, c: char)
    requires IsDigit(c)
    ensures Decimal(10 * n + (c as int - 48)) == (if n == 0 then "" else Decimal(n)) + [c]
    ensures Decimal(0) == "0"
  {
  }

  /** All digit strings are decimals with zeros in front. */
  lemma {:induction false} DigitsAreDecimal(s: string) returns (zeros: string)
    requires s != "" && AllDigits(s)
    ensures AllZeros(zeros) && s == zeros + Decimal(DecimalValue(s))
    decreases |s|
  {
    hide Decimal, DecimalValue;
    var init, last := s[..|s| - 1], s[|s| - 1];
    assert last in s && s == init + [last] && forall c | c in init :: c in s;
    ValueOfMore(init, last);
    DecimalOfMore(DecimalValue(init), last);
    zeros := "";
    if init == "" {
      ValueOfZeros("");
    } else {
      zeros := DigitsAreDecimal(init);
      if DecimalValue(init) == 0 {
        zeros := zeros + "0";
      }
    }
  }

  /** A text is a number exactly when it is one below 2^64 in decimal, with zeros or a plus sign in front perhaps. */
  ghost predicate IsDecimal(s: string, n: nat) {
    n < 0x1_0000_0000_0000_0000 &&
    exists zeros :: AllZeros(zeros) && (s == zeros + Decimal(n) || s == "+" + zeros + Decimal(n))
  }

  lemma ParsedIsDecimal(s: string, digits: string)
    requires digits != "" && AllDigits(digits) && (s == digits || s == "+" + digits)
    ensures DecimalValue(digits) < 0x1_0000_0000_0000_0000 ==> IsDecimal(s, DecimalValue(digits))
  {
    var zeros := DigitsAreDecimal(digits);
    var text := Decimal(DecimalValue(digits));
    hide DecimalValue, Decimal;
    assert "+" + zeros + text == "+" + (zeros + text);
  }

  lemma ParseU64Iff(s: string, n: nat)
    ensures ParseU64(s) == Some(n) <==> IsDecimal(s, n)
  {
    var digits := if s != "" && s[0] == '+' then s[1..] else s;
    assert !AllDigits(digits) <==> exists c | c in digits :: !IsDigit(c);
    hide DecimalValue, Decimal;
    if digits != "" && AllDigits(digits) {
      ParsedIsDecimal(s, digits);
    }
    if IsDecimal(s, n) {
      var zeros :| AllZeros(zeros) && (s == zeros + Decimal(n) || s == "+" + zeros + Decimal(n));
      DecimalReads(s, zeros, n);
    }
    hide IsDecimal;
  }

  lemma DecimalReads(s: string, zeros: string, n: nat)
    requires AllZeros(zeros) && (s == zeros + Decimal(n) || s == "+" + zeros + Decimal(n))
    ensures var digits := if s != "" && s[0] == '+' then s[1..] else s;
            digits != "" && AllDigits(digits) && DecimalValue(digits) == n
  {
    hide DecimalValue;
    ValueOfDecimal(zeros, n);
    var text := zeros + Decimal(n);
    assert text != "" && text[0] in text && text[0] != '+';
    if s != text {
      assert s == "+" + text && s[1..] == text;
    }
  }
}
