/** Decimal numbers read off their digits, exactly: the value a JSON number's text has, and powers
    of ten to compare it with.
 */
module Decimals {
  import opened Json
  import opened Numbers

  // ---------------------------------------------------------------- digits and powers

  /** A power of ten. */
  function Pow(k: nat): (r: nat)
    ensures r >= 1
  {
    PowerPositive(10, k);
    Power(10, k)
  }

  function DigitOf(c: char): (r: nat)
    requires Digit(c)
    ensures r < 10 && (r == 0 <==> c == '0')
  {
    (c as int) - ('0' as int)
  }

  function ValueOf(s: string): nat
    requires Digits(s)
  {
    if s == "" then 0 else 10 * ValueOf(s[..|s| - 1]) + DigitOf(s[|s| - 1])
  }

  /** The digits of a number, its point taken out. */
  function Significand(n: Number): string { n.whole + n.frac }

  lemma SignificandDigits(n: Number)
    requires NumberOk(n)
    ensures Digits(Significand(n))
  {}

  function Exponent(n: Number): int
    requires NumberOk(n)
  {
    Signed(n.mark, ValueOf(n.exp))
  }

  predicate Negative(mark: string) { |mark| == 2 && mark[1] == '-' }

  function Signed(mark: string, e: nat): int { if Negative(mark) then -(e as int) else e }

  /** What is kept of an exponent as it is read: no digit after it has reached the cap. */
  function Kept(cap: nat, s: string): nat
    requires Digits(s)
  {
    if s == "" then 0
    else
      var e := Kept(cap, s[..|s| - 1]);
      if e < cap then 10 * e + DigitOf(s[|s| - 1]) else e
  }

  /** All of it, or enough to be past the cap, and then a digit or more is missing. */
  lemma {:induction false} KeptBounds(cap: nat, s: string)
    requires Digits(s)
    ensures Kept(cap, s) == ValueOf(s) || (cap <= Kept(cap, s) && 10 * Kept(cap, s) <= ValueOf(s))
    decreases |s|
  {
    if s != "" { KeptBounds(cap, s[..|s| - 1]); }
  }

  lemma KeptNext(cap: nat, s: string, k: nat)
    requires Digits(s) && k < |s|
    ensures Digits(s[..k]) && Digits(s[..k + 1])
    ensures var e := Kept(cap, s[..k]);
            Kept(cap, s[..k + 1]) == if e < cap then 10 * e + DigitOf(s[k]) else e
  {
    assert s[..k + 1][..k] == s[..k];
  }

  /** The number is (-1)^minus * M * 10^E, with M its digits and E this. */
  function Scale(n: Number): int
    requires NumberOk(n)
  {
    Exponent(n) - |n.frac|
  }

  function Mantissa(n: Number): nat
    requires NumberOk(n)
  {
    SignificandDigits(n);
    ValueOf(Significand(n))
  }

  lemma {:induction false} PowGrows(a: nat, b: nat)
    requires a <= b
    ensures Pow(a) <= Pow(b) && (a < b ==> 10 * Pow(a) <= Pow(b))
    decreases b
  {
    if a < b { PowGrows(a, b - 1); }
  }

  lemma {:induction false} PowSum(a: nat, b: nat)
    ensures Pow(a + b) == Pow(a) * Pow(b)
    decreases b
  {
    if b > 0 { PowSum(a, b - 1); }
  }

  lemma ValueNext(s: string, k: nat)
    requires Digits(s) && k < |s|
    ensures Digits(s[..k]) && Digits(s[..k + 1]) && ValueOf(s[..k + 1]) == 10 * ValueOf(s[..k]) + DigitOf(s[k])
  {
    assert s[..k + 1][..k] == s[..k];
  }

  // ---------------------------------------------------------------- the text of a number

  /** Where the digits of a number's text begin, and where its exponent mark stands. */
  function Base(n: Number): nat { if n.minus then 1 else 0 }

  function MarkAt(n: Number): nat { Base(n) + |n.whole| + |Fraction(n.frac)| }

  lemma TextParts(n: Number)
    requires NumberOk(n)
    ensures var t := NumberText(n);
            && |t| == MarkAt(n) + |n.mark| + |n.exp|
            && (forall k | 0 <= k < |n.whole| :: t[Base(n) + k] == n.whole[k])
            && (n.frac != "" ==> t[Base(n) + |n.whole|] == '.')
            && (n.frac != "" ==> forall k | 0 <= k < |n.frac| :: t[Base(n) + |n.whole| + 1 + k] == n.frac[k])
            && (forall k | 0 <= k < |n.mark| :: t[MarkAt(n) + k] == n.mark[k])
            && (forall k | 0 <= k < |n.exp| :: t[MarkAt(n) + |n.mark| + k] == n.exp[k])
            && (n.minus ==> t[0] == '-')
  {
    hide NumberOk, MarkOk, Digits;
  }

  /** Where the k-th digit stands. */
  function DigitAt(n: Number, k: nat): nat { if k < |n.whole| then Base(n) + k else Base(n) + k + 1 }

  lemma DigitIs(n: Number, k: nat)
    requires NumberOk(n) && k < |Significand(n)|
    ensures DigitAt(n, k) < MarkAt(n) <= |NumberText(n)| && NumberText(n)[DigitAt(n, k)] == Significand(n)[k]
    ensures Digit(Significand(n)[k])
  {
    hide NumberText;
    TextParts(n);
    if k >= |n.whole| { assert NumberText(n)[Base(n) + |n.whole| + 1 + (k - |n.whole|)] == n.frac[k - |n.whole|]; }
  }

  /** A one and so many zeros. */
  function OneZeros(k: nat): string { if k == 0 then "1" else OneZeros(k - 1) + "0" }

  lemma {:induction false} OneZerosRead(k: nat)
    ensures var s := OneZeros(k);
            && |s| == k + 1 && s[0] == '1' && Digits(s) && ValueOf(s) == Pow(k)
    decreases k
  {
    if k > 0 {
      OneZerosRead(k - 1);
      assert OneZeros(k)[..k] == OneZeros(k - 1);
    }
  }

  /** Its zeros are read until the power of ten reaches the cap. */
  lemma {:induction false} OneZerosKept(cap: nat, k: nat, n: nat)
    requires 0 < cap <= Pow(n) && (n > 0 ==> Pow(n - 1) < cap)
    ensures Digits(OneZeros(k)) && Kept(cap, OneZeros(k)) == if k < n then Pow(k) else Pow(n)
    decreases k
  {
    hide Pow, Kept, OneZeros, Digits, ValueOf;
    if k == 0 {
      assert OneZeros(0) == "1" by { FirstZeros(0); }
      OneKept(cap);
    } else {
      OneZerosKept(cap, k - 1, n);
      ZeroKept(cap, k);
      if k <= n { PowGrows(k - 1, n - 1); }
    }
  }

  lemma FirstZeros(k: nat)
    ensures OneZeros(0) == "1" && (k > 0 ==> OneZeros(k) == OneZeros(k - 1) + "0")
  {}

  /** One more zero. */
  lemma ZeroKept(cap: nat, k: nat)
    requires k > 0 && Digits(OneZeros(k - 1))
    ensures Digits(OneZeros(k)) && Pow(k) == 10 * Pow(k - 1)
    ensures var e := Kept(cap, OneZeros(k - 1)); Kept(cap, OneZeros(k)) == if e < cap then 10 * e else e
  {
    hide OneZeros;
    FirstZeros(k);
    assert OneZeros(k)[..|OneZeros(k)| - 1] == OneZeros(k - 1);
  }

  lemma OneKept(cap: nat)
    requires cap > 0
    ensures Digits("1") && Kept(cap, "1") == 1 == Pow(0)
  {
    assert "1"[..0] == "";
  }

  lemma PowTen(k: nat)
    requires k > 0
    ensures Pow(k) == 10 * Pow(k - 1)
  {}

  // ---------------------------------------------------------------- the leading digit

  /** Where the first digit that is not zero stands; past the end if all are. */
  function LeadAt(s: string): (j: nat)
    ensures j <= |s| && (j < |s| ==> s[j] != '0') && forall k | 0 <= k < j :: s[k] == '0'
  {
    if s == "" || s[0] != '0' then 0 else 1 + LeadAt(s[1..])
  }

  predicate AllZero(s: string) { forall k | 0 <= k < |s| :: s[k] == '0' }

  lemma {:induction false} ZeroValue(s: string)
    requires Digits(s)
    ensures ValueOf(s) == 0 <==> AllZero(s)
    decreases |s|
  {
    if s != "" { ZeroValue(s[..|s| - 1]); }
  }

  /** A number whose leading digit is its j-th of m lies between two powers of ten, and is the lower
      one exactly when that digit is 1 and no other follows. */
  lemma {:induction false} LeadBounds(s: string, j: nat)
    requires Digits(s) && j < |s| && s[j] != '0' && AllZero(s[..j])
    ensures var p := |s| - 1 - j;
            && Pow(p) <= ValueOf(s) < Pow(p + 1)
            && (ValueOf(s) == Pow(p) <==> s[j] == '1' && AllZero(s[j + 1..]))
    decreases |s|
  {
    var t, c := s[..|s| - 1], s[|s| - 1];
    if j == |s| - 1 {
      assert s[..j] == t;
      ZeroValue(t);
    } else {
      assert t[..j] == s[..j] && t[j + 1..] == s[j + 1..][..|s| - 2 - j];
      LeadBounds(t, j);
      assert AllZero(s[j + 1..]) <==> AllZero(t[j + 1..]) && c == '0' by { ZeroLast(s[j + 1..]); }
    }
  }

  lemma ZeroLast(s: string)
    requires s != ""
    ensures AllZero(s) <==> AllZero(s[..|s| - 1]) && s[|s| - 1] == '0'
  {}

  // ---------------------------------------------------------------- printing

  /** A number in decimal, no leading zero. */
  function Printed(n: nat): string { (if n < 10 then "" else Printed(n / 10)) + [(('0' as int) + n % 10) as char] }

  lemma {:induction false} PrintedReads(n: nat)
    ensures var s := Printed(n); s != "" && Digits(s) && ValueOf(s) == n && (n > 0 ==> s[0] != '0')
    decreases n
  {
    var s := Printed(n);
    if n >= 10 { PrintedReads(n / 10); }
    assert s[..|s| - 1] == if n < 10 then "" else Printed(n / 10);
  }
}
