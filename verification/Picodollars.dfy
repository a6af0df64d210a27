/** Dollars as a JSON number, in picodollars (`picodollars` in provider/src/json_scan.hpp). */
module Picodollars {
  import opened Options
  import opened Modulo
  import opened Json
  import opened Numbers
  import opened Decimals

  const INT64_MAX: nat := 9223372036854775807
  const LIMIT: nat := 922337203685477580       // past it, ten times as much does not fit
  const MAX_TEXT: nat := 300
  const CAP: nat := 400

  // ---------------------------------------------------------------- what it is to compute

  /** m * 10^x, rounded half up. */
  function Rounded(m: nat, x: int): nat {
    if x >= 0 then Times(m, Pow(x)) else Quotient(m + 5 * Pow(-x - 1), Pow(-x))
  }

  function Times(a: nat, b: nat): nat { a * b }

  function Quotient(a: nat, b: nat): nat
    requires b > 0
  {
    a / b
  }

  function Fits(v: nat): int { if v > INT64_MAX then -1 else v }

  // ---------------------------------------------------------------- scaling

  lemma PowTimes(m: nat, x: nat)
    requires x > 0
    ensures m * Pow(x) == (10 * m) * Pow(x - 1)
  {
    assert Pow(x) == 10 * Pow(x - 1);
  }

  lemma TooMuch(m: nat, x: nat)
    requires m > LIMIT && x > 0
    ensures m * Pow(x) > INT64_MAX
  {
    assert Pow(x) == 10 * Pow(x - 1) >= 10;
    assert m * Pow(x) >= m * 10;
  }

  /** Up: none exactly when the amount does not fit. */
  method ScaleUp(m0: nat, x0: nat) returns (m: Option<nat>)
    requires m0 <= INT64_MAX
    ensures Fits(m0 * Pow(x0)) == if m.None? then -1 else m.value
    ensures m.Some? ==> m.value <= INT64_MAX
  {
    var v, x := m0, x0;
    while x > 0
      invariant v <= INT64_MAX && m0 * Pow(x0) == v * Pow(x)
    {
      if v > LIMIT {
        TooMuch(v, x);
        return None;
      }
      PowTimes(v, x);
      v, x := v * 10, x - 1;
    }
    return Some(v);
  }

  lemma Distribute(a: nat, b: nat, u: nat, v: nat)
    ensures a * (b * u + v) == (a * b) * u + a * v
  {}

  lemma SmallPart(a: nat, b: nat, v: nat, r: nat)
    requires v < b && r < a
    ensures a * v + r < a * b
  {
    assert a * v <= a * (b - 1);
  }

  /** Dividing twice is dividing once by both. */
  lemma DivTwice(m: nat, a: nat, extra: nat, b: nat)
    requires a > 0 && b > 0
    ensures a * b > 0 && (m / a + extra) / b == (m + a * extra) / (a * b)
  {
    var q, r := m / a, m % a;
    assert m == a * q + r;
    var u, v := (q + extra) / b, (q + extra) % b;
    assert q + extra == b * u + v;
    Distribute(a, b, u, v);
    SmallPart(a, b, v, r);
    Spread(a, q, extra);
    DivUnique(m + a * extra, a * b, u, a * v + r);
  }

  lemma Spread(a: nat, q: nat, extra: nat)
    ensures a * (q + extra) == a * q + a * extra
  {}

  lemma TooLittle(m: nat, j: nat, k: nat)
    requires j < k && m / Pow(j) == 0
    ensures Rounded(m, -(k as int)) == 0
  {
    assert m < Pow(j) by { if m >= Pow(j) { DivAtLeast(m, Pow(j)); } }
    PowGrows(j, k - 1);
    RoundsToZero(m, k);
  }

  lemma RoundsToZero(m: nat, k: nat)
    requires k > 0 && m < Pow(k - 1)
    ensures Rounded(m, -(k as int)) == 0
  {
    SmallQuotient(m, Pow(k - 1));
  }

  lemma SmallQuotient(m: nat, a: nat)
    requires m < a
    ensures (m + 5 * a) / (10 * a) == 0
  {
    DivUnique(m + 5 * a, 10 * a, 0, m + 5 * a);
  }

  lemma DivAtLeast(m: nat, a: nat)
    requires a > 0 && m >= a
    ensures m / a >= 1
  {}

  /** Down: a digit at a time, the last one rounding. */
  method ScaleDown(m0: nat, x0: int) returns (m: nat)
    requires x0 < 0
    ensures m == Rounded(m0, x0)
  {
    hide Pow;
    ghost var k: nat := -x0;
    ghost var j: nat := 0;
    var x := x0;
    m := m0;
    assert Pow(0) == 1 by { PowNone(); }
    assert m0 / 1 == m0;
    while x < 0 && m > 0
      invariant x0 <= x <= 0 && j == x - x0
      invariant if x == 0 then m == Rounded(m0, x0) else m == m0 / Pow(j)
      decreases -x
    {
      PowStep(j);
      if x == -1 {
        DivTwice(m0, Pow(j), 5, 10);
        m := (m + 5) / 10;
      } else {
        DivTwice(m0, Pow(j), 0, 10);
        m := m / 10;
      }
      x, j := x + 1, j + 1;
    }
    if x < 0 { TooLittle(m0, j, k); }
  }

  lemma PowNone()
    ensures Pow(0) == 1
  {}

  lemma PowStep(j: nat)
    ensures Pow(j + 1) == 10 * Pow(j)
  {}

  // ---------------------------------------------------------------- what it reads

  /** Digits with a point anywhere among them or none, then an exponent or none. */
  datatype Amount = Amount(whole: string, point: bool, frac: string, mark: string, exp: string)

  predicate HeadOk(whole: string, point: bool, frac: string) { Digits(whole) && Digits(frac) && (frac != "" ==> point) }

  predicate ExponentOk(mark: string, exp: string) { MarkOk(mark) && exp != "" && Digits(exp) }

  predicate AmountOk(a: Amount) {
    && HeadOk(a.whole, a.point, a.frac) && a.whole + a.frac != ""
    && (a.mark + a.exp == "" || ExponentOk(a.mark, a.exp))
  }

  function HeadText(whole: string, point: bool, frac: string): string { whole + (if point then "." else "") + frac }

  function AmountText(a: Amount): string { HeadText(a.whole, a.point, a.frac) + (a.mark + a.exp) }

  ghost predicate Malformed(t: string) { forall a | AmountOk(a) :: AmountText(a) != t }

  /** Its digits, and how many come after the eighteenth that counts. */
  function AmountDigits(a: Amount): (s: string)
    requires AmountOk(a)
    ensures Digits(s)
  {
    a.whole + a.frac
  }

  function Dropped(s: string): nat { if |s| - LeadAt(s) <= 18 then 0 else |s| - LeadAt(s) - 18 }

  /** The power of ten of the last digit kept, in picodollars. */
  function Places(a: Amount, e: nat): int
    requires AmountOk(a)
  {
    12 + Dropped(AmountDigits(a)) - |a.frac| + Signed(a.mark, e)
  }

  function Answer(a: Amount): int
    requires AmountOk(a)
  {
    var s := AmountDigits(a);
    Fits(Rounded(ValueOf(s) / Pow(Dropped(s)), Places(a, Kept(CAP, a.exp))))
  }

  // ---------------------------------------------------------------- the digits

  /** What the digits so far give: the value of those that count, how many, and the scale. */
  predicate Read(s: string, places: nat, m: nat, digits: nat, x: int)
    requires Digits(s)
  {
    var j := LeadAt(s);
    && digits == Least(18, |s| - j) && m == ValueOf(s[..j + digits])
    && x == 12 - places + (|s| - j - digits)
  }

  lemma LeadSnoc(s: string, c: char)
    ensures LeadAt(s + [c]) == if LeadAt(s) < |s| then LeadAt(s) else if c == '0' then |s| + 1 else |s|
  {
    var t := s + [c];
    assert t[|s|] == c;
    assert forall k | 0 <= k < |s| :: t[k] == s[k];
  }

  /** Nothing counts yet exactly while all is zero. */
  lemma NoneYet(s: string, k: nat)
    requires Digits(s) && LeadAt(s) <= k <= |s| && (k == LeadAt(s) ==> k == |s|)
    ensures Digits(s[..k]) && (ValueOf(s[..k]) == 0 <==> LeadAt(s) == |s|)
  {
    ZeroValue(s[..k]);
    var j := LeadAt(s);
    if j < |s| { assert s[..k][j] == s[j] != '0'; }
  }

  lemma ReadNext(s: string, places: nat, m: nat, digits: nat, x: int, c: char, point: bool)
    requires Digits(s) && Digit(c) && Read(s, places, m, digits, x)
    ensures Digits(s + [c])
    ensures var more := places + if point then 1 else 0;
            if m == 0 && c == '0' then Read(s + [c], more, m, digits, x - if point then 1 else 0)
            else if digits < 18 then Read(s + [c], more, 10 * m + DigitOf(c), digits + 1, x - if point then 1 else 0)
            else Read(s + [c], more, m, digits, x + if point then 0 else 1)
  {
    hide LeadAt, ValueOf;
    var t, j := s + [c], LeadAt(s);
    LeadSnoc(s, c);
    NoneYet(s, j + digits);
    assert t[..j + digits] == s[..j + digits];
    if j + digits == |s| {
      ValueNext(t, |s|);
      assert t[..|s| + 1] == t;
      ZeroValue(t);
      if m == 0 && c == '0' { ZeroLast(t); assert t[..|s|] == s; ZeroValue(s); assert s[..|s|] == s; }
    }
  }

  lemma PointStays(whole: string, frac: string, c: char)
    ensures HeadText(whole, true, frac + [c]) == HeadText(whole, true, frac) + [c]
    ensures whole + (frac + [c]) == whole + frac + [c]
    ensures HeadText(whole + [c], false, "") == HeadText(whole, false, "") + [c]
    ensures HeadText(whole, true, "") == HeadText(whole, false, "") + "."
    ensures (whole + [c]) + "" == whole + "" + [c]
  {}

  /** The digits and the point, as far as they go. */
  method ReadHead(t: string) returns (i: nat, m: nat, x: int, any: bool, ghost whole: string, ghost point: bool, ghost frac: string)
    ensures i <= |t| && HeadOk(whole, point, frac) && t[..i] == HeadText(whole, point, frac)
    ensures i < |t| ==> !Digit(t[i]) && (t[i] == '.' ==> point)
    ensures any <==> whole + frac != ""
    ensures exists digits: nat :: Read(whole + frac, |frac|, m, digits, x)
  {
    hide Read, HeadText;
    i, m, x, any := 0, 0, 12, false;
    whole, point, frac := "", false, "";
    var digits, seen := 0, false;
    assert Read("" + "", 0, 0, 0, 12) by { ReadNothing(); }
    assert t[..0] == HeadText("", false, "") by { HeadNothing(); }
    while i < |t| && (Digit(t[i]) || (t[i] == '.' && !seen))
      invariant i <= |t| && HeadOk(whole, point, frac) && t[..i] == HeadText(whole, point, frac)
      invariant seen == point && digits >= 0 && (any <==> whole + frac != "")
      invariant Read(whole + frac, |frac|, m, digits, x)
    {
      assert t[..i + 1] == t[..i] + [t[i]];
      PointStays(whole, frac, t[i]);
      if t[i] == '.' {
        seen, point := true, true;
      } else {
        ReadNext(whole + frac, |frac|, m, digits, x, t[i], point);
        any := true;
        if m == 0 && t[i] == '0' {
          x := x - if seen then 1 else 0;
        } else if digits < 18 {
          m := m * 10 + DigitOf(t[i]);
          digits := digits + 1;
          x := x - if seen then 1 else 0;
        } else {
          x := x + if seen then 0 else 1;
        }
        if point { frac := frac + [t[i]]; } else { whole := whole + [t[i]]; }
      }
      i := i + 1;
    }
  }

  lemma ReadNothing()
    ensures Read("" + "", 0, 0, 0, 12)
  {}

  lemma HeadNothing()
    ensures HeadText("", false, "") == ""
  {}

  lemma {:induction false} PrefixValue(s: string, k: nat)
    requires Digits(s) && k <= |s|
    ensures Digits(s[..k]) && ValueOf(s[..k]) == ValueOf(s) / Pow(|s| - k)
    decreases |s| - k
  {
    if k == |s| {
      assert s[..k] == s;
      assert ValueOf(s) / 1 == ValueOf(s);
    } else {
      hide ValueOf;
      PrefixValue(s, k + 1);
      ValueNext(s, k);
      TenTimes(ValueOf(s), Pow(|s| - k - 1), ValueOf(s[..k]), DigitOf(s[k]));
    }
  }

  lemma TenTimes(m: nat, a: nat, q: nat, d: nat)
    requires a > 0 && m / a == 10 * q + d && d < 10
    ensures m / (10 * a) == q
  {
    DivTwice(m, a, 0, 10);
    assert (10 * q + d) / 10 == q;
  }

  lemma ReadAll(s: string, places: nat, m: nat, digits: nat, x: int)
    requires Digits(s) && Read(s, places, m, digits, x)
    ensures m == ValueOf(s) / Pow(Dropped(s)) && m < Pow(18) && x == 12 - places + Dropped(s)
  {
    hide LeadAt, ValueOf, Pow;
    var j := LeadAt(s);
    PrefixValue(s, j + digits);
    EighteenBound(s[..j + digits], j);
  }

  lemma EighteenBound(s: string, j: nat)
    requires Digits(s) && j <= |s| <= j + 18 && AllZero(s[..j]) && (j < |s| ==> s[j] != '0')
    ensures ValueOf(s) < Pow(18)
  {
    hide ValueOf, Pow;
    if j < |s| {
      LeadBounds(s, j);
      PowGrows(|s| - j, 18);
    } else {
      assert s[..j] == s;
      ZeroValue(s);
    }
  }

  // ---------------------------------------------------------------- the exponent

  /** How an exponent's text divides. */
  lemma ExponentIs(rest: string, mark: string, exp: string)
    requires ExponentOk(mark, exp) && rest == mark + exp
    ensures |rest| > 1 && (rest[0] == 'e' || rest[0] == 'E')
    ensures |mark| == if rest[1] == '+' || rest[1] == '-' then 2 else 1
    ensures |rest| > |mark| && mark == rest[..|mark|] && exp == rest[|mark|..]
  {
    assert rest[|mark|] == exp[0];
  }

  ghost predicate NoExponent(rest: string) { forall mark, exp | ExponentOk(mark, exp) :: rest != mark + exp }

  lemma Refuted(rest: string, n: nat)
    requires rest != ""
    requires (rest[0] == 'e' || rest[0] == 'E') ==>
               && n == (if |rest| > 1 && (rest[1] == '+' || rest[1] == '-') then 2 else 1)
               && (|rest| <= n || !Digits(rest[n..]))
    ensures NoExponent(rest)
  {
    forall mark, exp | ExponentOk(mark, exp) ensures rest != mark + exp {
      if rest == mark + exp { ExponentIs(rest, mark, exp); }
    }
  }

  method ExponentDigits(t: string, from: nat) returns (i: nat, e: nat)
    requires from <= |t|
    ensures from <= i <= |t| && Digits(t[from..i]) && (i < |t| ==> !Digit(t[i])) && e == Kept(CAP, t[from..i])
  {
    hide Kept;
    i, e := from, 0;
    ghost var read := "";
    KeptNothing();
    while i < |t| && Digit(t[i])
      invariant from <= i <= |t| && read == t[from..i] && Digits(read) && e == Kept(CAP, read)
    {
      KeptSnoc(read, t[i]);
      if e < CAP { e := e * 10 + DigitOf(t[i]); }
      read := read + [t[i]];
      i := i + 1;
    }
  }

  lemma KeptSnoc(s: string, c: char)
    requires Digits(s) && Digit(c)
    ensures Digits(s + [c])
    ensures Kept(CAP, s + [c]) == if Kept(CAP, s) < CAP then 10 * Kept(CAP, s) + DigitOf(c) else Kept(CAP, s)
  {
    assert (s + [c])[..|s|] == s;
  }

  method ReadExponent(t: string, i0: nat) returns (ok: bool, e: nat, negative: bool, ghost mark: string, ghost exp: string)
    requires i0 < |t|
    ensures ok ==> ExponentOk(mark, exp) && t[i0..] == mark + exp && e == Kept(CAP, exp) && negative == Negative(mark)
    ensures !ok ==> NoExponent(t[i0..])
  {
    hide Kept, NoExponent;
    ok, e, negative, mark, exp := false, 0, false, [t[i0]], "";
    if t[i0] != 'e' && t[i0] != 'E' {
      Refuted(t[i0..], 0);
      return;
    }
    var i := i0 + 1;
    if i < |t| && (t[i] == '+' || t[i] == '-') {
      negative := t[i] == '-';
      mark := mark + [t[i]];
      i := i + 1;
    }
    var from := i;
    i, e := ExponentDigits(t, from);
    if i == from || i != |t| {
      if i < |t| { assert t[i0..][from - i0..][i - from] == t[i]; }
      Refuted(t[i0..], from - i0);
      return;
    }
    ok, exp := true, t[from..];
    assert t[from..i] == exp;
    assert t[i0..] == mark + exp;
  }

  lemma KeptNothing()
    ensures Kept(CAP, "") == 0
  {}

  // ---------------------------------------------------------------- one reading

  /** Where a text's digits and point end does not depend on how it is read. */
  lemma HeadIs(t: string, i: nat, whole: string, point: bool, frac: string, b: Amount)
    requires i <= |t| && HeadOk(whole, point, frac) && t[..i] == HeadText(whole, point, frac)
    requires i < |t| ==> !Digit(t[i]) && (t[i] == '.' ==> point)
    requires AmountOk(b) && AmountText(b) == t
    ensures whole == b.whole && point == b.point && frac == b.frac && t[i..] == b.mark + b.exp
  {
    var h, rest := HeadText(b.whole, b.point, b.frac), b.mark + b.exp;
    assert t[..|h|] == h && t[|h|..] == rest;
    HeadBytes(whole, point, frac);
    HeadBytes(b.whole, b.point, b.frac);
    assert point ==> t[..i][|whole|] == t[|whole|] == '.';
    assert |h| < |t| ==> t[|h|] == rest[0] == b.mark[0];
    assert |whole| < |h| ==> t[|whole|] == h[|whole|];
    assert i >= |h|;
    assert i <= |h|;
    HeadUnique(whole, point, frac, b.whole, b.point, b.frac);
  }

  /** Digits, but for one point at the end of the whole part. */
  lemma HeadBytes(whole: string, point: bool, frac: string)
    requires HeadOk(whole, point, frac)
    ensures var h := HeadText(whole, point, frac);
            && |h| == |whole| + |frac| + (if point then 1 else 0)
            && (point ==> h[|whole|] == '.')
            && forall k | 0 <= k < |h| :: (h[k] == '.' && point && k == |whole|) || (h[k] != '.' && Digit(h[k]))
  {}

  lemma HeadUnique(w: string, p: bool, f: string, w': string, p': bool, f': string)
    requires HeadOk(w, p, f) && HeadOk(w', p', f') && HeadText(w, p, f) == HeadText(w', p', f')
    ensures w == w' && p == p' && f == f'
  {
    HeadBytes(w, p, f);
    HeadBytes(w', p', f');
    var h := HeadText(w, p, f);
    assert |w| == |w'|;
    assert w == h[..|w|] && w' == h[..|w|];
    assert f == h[|h| - |f|..] && f' == h[|h| - |f'|..];
  }

  lemma ReadOnce(a: Amount, b: Amount)
    requires AmountOk(a) && AmountOk(b) && AmountText(a) == AmountText(b)
    ensures a == b
  {
    var t, h := AmountText(a), HeadText(a.whole, a.point, a.frac);
    assert t[..|h|] == h && t[|h|..] == a.mark + a.exp;
    if |h| < |t| { assert t[|h|] == (a.mark + a.exp)[0] == a.mark[0]; }
    HeadIs(t, |h|, a.whole, a.point, a.frac, b);
    if a.mark + a.exp != "" {
      ExponentIs(a.mark + a.exp, a.mark, a.exp);
      ExponentIs(a.mark + a.exp, b.mark, b.exp);
    } else {
      assert |a.mark| + |a.exp| == 0 && |b.mark| + |b.exp| == 0;
    }
  }

  // ---------------------------------------------------------------- the amount

  lemma ReadsAs(t: string, i: nat, a: Amount)
    requires i <= |t| && AmountOk(a) && t[..i] == HeadText(a.whole, a.point, a.frac) && t[i..] == a.mark + a.exp
    ensures AmountText(a) == t && forall b | AmountOk(b) && AmountText(b) == t :: b == a
  {
    hide HeadText, AmountOk;
    assert t == t[..i] + t[i..];
    forall b | AmountOk(b) && AmountText(b) == t ensures b == a { ReadOnce(a, b); }
  }

  lemma NoReading(t: string, i: nat, whole: string, point: bool, frac: string)
    requires i <= |t| && HeadOk(whole, point, frac) && t[..i] == HeadText(whole, point, frac)
    requires i < |t| ==> !Digit(t[i]) && (t[i] == '.' ==> point)
    requires whole + frac == "" || (i < |t| && NoExponent(t[i..]))
    ensures Malformed(t)
  {
    hide HeadText;
    forall b | AmountOk(b) ensures AmountText(b) != t {
      if AmountText(b) == t { HeadIs(t, i, whole, point, frac, b); }
    }
  }

  /** For every text: the answer of the amount it writes, and -1 if it writes none. */
  method Picodollars(t: string) returns (r: int)
    ensures forall a | AmountOk(a) && AmountText(a) == t :: r == Answer(a)
    ensures Malformed(t) ==> r == -1
  {
    hide AmountText, HeadText, HeadOk, Read, NoExponent, Malformed, Rounded, Pow, Kept, ValueOf, ExponentOk;
    var i, m, x, any;
    ghost var whole, point, frac;
    i, m, x, any, whole, point, frac := ReadHead(t);
    if !any {
      NoReading(t, i, whole, point, frac);
      NoneWrites(t);
      return -1;
    }
    ghost var mark, exp := "", "";
    var e, negative := 0, false;
    if i < |t| {
      var ok;
      ok, e, negative, mark, exp := ReadExponent(t, i);
      if !ok {
        NoReading(t, i, whole, point, frac);
        NoneWrites(t);
        return -1;
      }
    } else {
      KeptNothing();
    }
    ghost var a := Amount(whole, point, frac, mark, exp);
    ReadsAs(t, i, a);
    SomeWrites(t, a);
    AnswerFrom(a, m, x, e);
    x := x + if negative then -e else e;
    r := Scaled(m, x);
  }

  lemma NoneWrites(t: string)
    requires Malformed(t)
    ensures forall a | AmountOk(a) :: AmountText(a) != t
  {}

  lemma SomeWrites(t: string, a: Amount)
    requires AmountOk(a) && AmountText(a) == t
    ensures !Malformed(t)
  {}

  lemma AnswerFrom(a: Amount, m: nat, x: int, e: nat)
    requires AmountOk(a) && e == Kept(CAP, a.exp) && exists digits: nat :: Read(a.whole + a.frac, |a.frac|, m, digits, x)
    ensures Answer(a) == Fits(Rounded(m, x + Signed(a.mark, e))) && m <= INT64_MAX
  {
    hide Read, Rounded, Pow, Kept, ValueOf;
    var digits: nat :| Read(a.whole + a.frac, |a.frac|, m, digits, x);
    ReadAll(a.whole + a.frac, |a.frac|, m, digits, x);
    Pow18();
  }

  method Scaled(m: nat, x: int) returns (r: int)
    requires m <= INT64_MAX
    ensures r == Fits(Rounded(m, x))
  {
    hide Rounded, Pow;
    if x >= 0 {
      var up := ScaleUp(m, x);
      RoundedUp(m, x);
      return if up.None? then -1 else up.value;
    }
    var down := ScaleDown(m, x);
    return if down > INT64_MAX then -1 else down;
  }

  lemma RoundedUp(m: nat, x: nat)
    ensures Rounded(m, x) == m * Pow(x)
  {}

  lemma Pow18()
    ensures Pow(18) == 1_000_000_000_000_000_000
  {
    assert Pow(6) == 1_000_000;
    PowSum(6, 6);
    PowSum(12, 6);
  }

  // ---------------------------------------------------------------- the digits dropped

  /** Digits dropped below those that the rounding drops anyway change nothing. */
  lemma DropUnseen(m: nat, d: nat, x: int)
    requires x < 0
    ensures Rounded(m / Pow(d), x) == Rounded(m, x - d)
  {
    hide Pow, Rounded;
    var k: nat := -x;
    RoundedDown(m / Pow(d), k);
    RoundedDown(m, k + d);
    DivTwice(m, Pow(d), 5 * Pow(k - 1), Pow(k));
    PowSum(d, k - 1);
    PowSum(d, k);
    FiveTimes(Pow(d), Pow(k - 1));
    assert d + k == k + d && d + (k - 1) == k + d - 1;
  }

  lemma FiveTimes(a: nat, b: nat)
    ensures a * (5 * b) == 5 * (a * b)
  {}

  lemma RoundedDown(m: nat, k: nat)
    requires k > 0
    ensures Rounded(m, -(k as int)) == (m + 5 * Pow(k - 1)) / Pow(k)
  {}

  /** Otherwise what is lost is what they round to. */
  lemma DropLoses(m: nat, d: nat, x: nat)
    ensures Rounded(m, x - d) == Rounded(m / Pow(d), x) + Rounded(m % Pow(d), x - d)
  {
    hide Pow, Rounded;
    var q, r := m / Pow(d), m % Pow(d);
    RoundedUp(q, x);
    assert m == Pow(d) * q + r;
    if x >= d {
      RoundedUp(m, x - d);
      RoundedUp(r, x - d);
      PowSum(d, x - d);
      Shift(Pow(d), q, r, Pow(x - d));
    } else {
      var g: nat := d - x;
      PowSum(x, g);
      RoundedDown(m, g);
      RoundedDown(r, g);
      Regroup(Pow(x), Pow(g), q);
      DivShift(r + 5 * Pow(g - 1), Pow(x) * q, Pow(g));
    }
  }

  lemma Shift(a: nat, q: nat, r: nat, b: nat)
    ensures (a * q + r) * b == q * (a * b) + r * b
  {}

  lemma Regroup(a: nat, b: nat, q: nat)
    ensures (a * b) * q == b * (a * q) && q * a == a * q
  {}

  lemma DivShift(z: nat, q: nat, m: nat)
    requires m > 0
    ensures (m * q + z) / m == q + z / m
  {
    Spread(m, q, z / m);
    DivUnique(m * q + z, m, q + z / m, z % m);
  }

  // ---------------------------------------------------------------- the exponent kept

  lemma NothingLeft(m: nat, x: int)
    requires m < Pow(18) && x < -18
    ensures Rounded(m, x) == 0
  {
    var k: nat := -x;
    hide Rounded, Pow;
    PowGrows(18, k - 1);
    RoundsToZero(m, k);
  }

  lemma FarTooMuch(m: nat, x: int)
    requires m >= 1 && x >= 19
    ensures Fits(Rounded(m, x)) == -1
  {
    Pow18();
    assert Pow(19) == 10 * Pow(18);
    PowGrows(19, x);
    assert m * Pow(x) >= Pow(x);
  }

  lemma ZeroRounds(x: int)
    ensures Rounded(0, x) == 0
  {
    if x < 0 { SmallQuotient(0, Pow(-x - 1)); }
  }

  /** The value of the digits kept. */
  function KeptValue(a: Amount): nat
    requires AmountOk(a)
  {
    ValueOf(AmountDigits(a)) / Pow(Dropped(AmountDigits(a)))
  }

  /** Below half a picodollar; too large for 64 bits. */
  predicate Vanishes(m: nat, x: int) { m == 0 || (x < 0 && m < 5 * Pow(-x - 1)) }

  predicate Overflows(m: nat, x: int) { x >= 0 && m * Pow(x) > INT64_MAX }

  /** The exponent was cut, and at the larger of the two scales, as kept and whole, the amount does
      not vanish, nor at the smaller one overflow. */
  predicate Misscaled(a: Amount)
    requires AmountOk(a)
  {
    var m, kept, all := KeptValue(a), Places(a, Kept(CAP, a.exp)), Places(a, ValueOf(a.exp));
    kept != all && !Vanishes(m, if kept < all then all else kept) && !Overflows(m, Least(kept, all))
  }

  lemma VanishesIs(m: nat, x: int)
    ensures Rounded(m, x) == 0 <==> Vanishes(m, x)
  {
    hide Pow;
    if x >= 0 {
      RoundedUp(m, x);
      if m > 0 { assert m * Pow(x) >= m; }
    } else {
      PowTen(-x);
      HalfUp(m, Pow(-x - 1));
    }
  }

  lemma HalfUp(m: nat, a: nat)
    requires a > 0
    ensures (m + 5 * a) / (10 * a) == 0 <==> m < 5 * a
  {
    if m < 5 * a { DivUnique(m + 5 * a, 10 * a, 0, m + 5 * a); } else { DivAtLeast(m + 5 * a, 10 * a); }
  }

  lemma OverflowsIs(m: nat, x: int)
    requires m < Pow(18)
    ensures Rounded(m, x) > INT64_MAX <==> Overflows(m, x)
  {
    hide Pow;
    if x >= 0 {
      RoundedUp(m, x);
    } else {
      Pow18();
      PowTen(-x);
      SmallerHalf(m, Pow(-x - 1), Pow(-x));
    }
  }

  lemma SmallerHalf(m: nat, a: nat, b: nat)
    requires a > 0 && b == 10 * a
    ensures (m + 5 * a) / b <= m
  {
    AtLeast(a, m);
    TenParts(a, m);
    DivBelow(m + 5 * a, b, m + 1);
  }

  lemma AtLeast(a: nat, m: nat)
    requires a > 0
    ensures a * m >= m
  {}

  lemma TenParts(a: nat, m: nat)
    ensures (10 * a) * (m + 1) == 10 * (a * m) + 10 * a
  {}

  lemma DivBelow(z: nat, b: nat, n: nat)
    requires b > 0 && z < b * n
    ensures z / b < n
  {
    var q, r := z / b, z % b;
    assert z == b * q + r;
    if q >= n { TimesGrows(b, n, q); }
  }

  lemma TimesGrows(b: nat, n: nat, q: nat)
    requires n <= q
    ensures b * n <= b * q
  {}

  /** Two scales far apart round to the same only out of range. */
  lemma FarApart(m: nat, x: int, y: int)
    requires 0 < m < Pow(18) && y - x >= 37
    ensures Fits(Rounded(m, x)) == Fits(Rounded(m, y)) <==> Vanishes(m, y) || Overflows(m, x)
  {
    hide Rounded, Pow, Vanishes, Overflows;
    VanishesIs(m, x);
    VanishesIs(m, y);
    OverflowsIs(m, x);
    if x < -18 { NothingLeft(m, x); } else { FarTooMuch(m, y); }
    if Vanishes(m, y) && x >= -18 { ZeroFits(); }
  }

  lemma ZeroFits()
    ensures Fits(0) == 0
  {}

  /** The kept exponent scales as the whole one does, but there. */
  lemma KeptScales(a: Amount)
    requires AmountOk(a)
    ensures var m := KeptValue(a);
            Fits(Rounded(m, Places(a, Kept(CAP, a.exp)))) == Fits(Rounded(m, Places(a, ValueOf(a.exp)))) <==> !Misscaled(a)
    ensures |AmountText(a)| <= MAX_TEXT ==> !Misscaled(a)
  {
    hide Rounded, Pow, Kept, ValueOf, Vanishes, Overflows;
    var m, kept, all := KeptValue(a), Kept(CAP, a.exp), ValueOf(a.exp);
    KeptBounds(CAP, a.exp);
    KeptSmall(AmountDigits(a));
    VanishesIs(m, Places(a, kept));
    VanishesIs(m, Places(a, all));
    if kept != all {
      if m == 0 {
        ZeroRounds(Places(a, kept));
        ZeroRounds(Places(a, all));
      } else if Negative(a.mark) {
        FarApart(m, Places(a, all), Places(a, kept));
        if |AmountText(a)| <= MAX_TEXT { NothingLeft(m, Places(a, kept)); }
      } else {
        FarApart(m, Places(a, kept), Places(a, all));
        if |AmountText(a)| <= MAX_TEXT {
          FarTooMuch(m, Places(a, kept));
          OverflowsIs(m, Places(a, kept));
        }
      }
    }
  }

  /** What the digits dropped round to, when a picodollar or more is kept of the others. */
  function Lost(a: Amount): nat
    requires AmountOk(a)
  {
    var s, x := AmountDigits(a), Places(a, ValueOf(a.exp));
    if x < 0 then 0 else Rounded(ValueOf(s) % Pow(Dropped(s)), x - Dropped(s))
  }

  /** The exact amount, rounded half up. */
  function Due(a: Amount): nat
    requires AmountOk(a)
  {
    Rounded(ValueOf(AmountDigits(a)), 12 - |a.frac| + Signed(a.mark, ValueOf(a.exp)))
  }

  /** For every amount: what is due, less what the digits dropped round to, -1 exactly when that does
      not fit 64 bits, if and only if it is not misscaled, as none of at most 300 bytes is. */
  lemma AnswerIs(a: Amount)
    requires AmountOk(a)
    ensures Lost(a) <= Due(a) && (Answer(a) == Fits(Due(a) - Lost(a)) <==> !Misscaled(a))
    ensures |AmountText(a)| <= MAX_TEXT || Kept(CAP, a.exp) == ValueOf(a.exp) ==> !Misscaled(a)
    ensures Dropped(AmountDigits(a)) == 0 || Places(a, ValueOf(a.exp)) < 0 ==> Lost(a) == 0
  {
    hide Rounded, Pow, Kept, ValueOf, AmountText, Vanishes, Overflows;
    var s := AmountDigits(a);
    var v, d, x := ValueOf(s), Dropped(s), Places(a, ValueOf(a.exp));
    KeptScales(a);
    if x < 0 {
      DropUnseen(v, d, x);
    } else {
      DropLoses(v, d, x);
      if d == 0 {
        PowNone();
        assert v % 1 == 0;
        ZeroRounds(x);
      }
    }
  }

  /** 10^k dollars with an exponent of -10^q: nothing is due, and something is answered. */
  lemma LongMisscaled(k: nat, q: nat)
    requires 1000 <= k && k + 13 < Pow(q)
    ensures var a := Amount(OneZeros(k), false, "", "e-", OneZeros(q));
            AmountOk(a) && Misscaled(a) && Due(a) == 0 && Answer(a) != 0
  {
    hide Rounded, Pow, ValueOf, OneZeros, LeadAt, Vanishes, Overflows, Answer, Due, Misscaled, Kept;
    var a := Amount(OneZeros(k), false, "", "e-", OneZeros(q));
    LongExponent(q);
    LongDigits(k);
    assert AmountDigits(a) == OneZeros(k) && "e-"[1] == '-';
    LongScales(a, k, Pow(q));
  }

  lemma LongScales(a: Amount, k: nat, e: nat)
    requires AmountOk(a) && AmountDigits(a) == OneZeros(k) && a.frac == "" && Negative(a.mark)
    requires 1000 <= k && k + 13 < e && Kept(CAP, a.exp) == 1000 && ValueOf(a.exp) == e
    requires LeadAt(OneZeros(k)) == 0 && |OneZeros(k)| == k + 1 && ValueOf(OneZeros(k)) == Pow(k) && Pow(k) / Pow(k - 17) == Pow(17)
    ensures Misscaled(a) && Due(a) == 0 && Answer(a) != 0
  {
    hide Rounded, Pow, ValueOf, OneZeros, LeadAt, Vanishes, Overflows, Kept, Misscaled;
    KeptScales(a);
    var kept, all := Places(a, 1000), Places(a, e);
    assert Dropped(OneZeros(k)) == k - 17 && kept == k - 1005 && all == k - 5 - e;
    TenStays(kept);
    PowGrows(17, 18);
    NothingLeft(Pow(17), all);
    PowGrows(k, e - 13);
    RoundsToZero(Pow(k), e - 12);
  }

  lemma TenStays(x: int)
    requires x >= -5
    ensures Rounded(Pow(17), x) != 0 && Pow(17) > 0
  {
    hide Pow, Rounded;
    VanishesIs(Pow(17), x);
    if x < 0 { PowGrows(-x - 1, 17); }
  }

  lemma LongDigits(k: nat)
    requires k >= 17
    ensures Digits(OneZeros(k)) && LeadAt(OneZeros(k)) == 0 && |OneZeros(k)| == k + 1
    ensures ValueOf(OneZeros(k)) == Pow(k) && Pow(k) / Pow(k - 17) == Pow(17)
  {
    hide Pow, OneZeros, ValueOf;
    OneZerosRead(k);
    PowSum(k - 17, 17);
    DivUnique(Pow(k), Pow(k - 17), Pow(17), 0);
  }

  lemma LongExponent(q: nat)
    requires Pow(q) > 1000
    ensures ExponentOk("e-", OneZeros(q)) && Kept(CAP, OneZeros(q)) == 1000 && ValueOf(OneZeros(q)) == Pow(q)
  {
    hide Pow, OneZeros, ValueOf, Kept;
    OneZerosRead(q);
    Thousand();
    OneZerosKept(CAP, q, 3);
    if q < 3 { PowGrows(q, 3); }
  }

  lemma Thousand()
    ensures Pow(3) == 1000 && Pow(2) == 100
  {}

  lemma KeptSmall(s: string)
    requires Digits(s)
    ensures ValueOf(s) / Pow(Dropped(s)) < Pow(18)
  {
    hide ValueOf, Pow, LeadAt;
    var j, d := LeadAt(s), Dropped(s);
    PrefixValue(s, |s| - d);
    EighteenBound(s[..|s| - d], j);
  }

  // ---------------------------------------------------------------- JSON numbers

  function AmountOf(n: Number): Amount { Amount(n.whole, n.frac != "", n.frac, n.mark, n.exp) }

  /** A JSON number writes the amount it is, or none if it is negative. */
  lemma JsonAmount(n: Number)
    requires NumberOk(n)
    ensures n.minus ==> Malformed(NumberText(n))
    ensures var a := AmountOf(n);
            && AmountOk(a) && (!n.minus ==> AmountText(a) == NumberText(n))
            && Due(a) == Rounded(Mantissa(n), Scale(n) + 12)
  {
    hide Rounded;
    SignificandDigits(n);
    if n.minus {
      forall b | AmountOk(b) ensures AmountText(b) != NumberText(n) {
        HeadBytes(b.whole, b.point, b.frac);
        assert AmountText(b)[0] == HeadText(b.whole, b.point, b.frac)[0];
      }
    }
  }

  /** Six digits of dollars and thirteen decimals: a picodollar less than is due is answered exactly
      when the last decimal is 5 or more. */
  lemma LastDecimal(whole: string, frac: string, c: char)
    requires |whole| == 6 && Digits(whole) && whole[0] != '0' && |frac| == 12 && Digits(frac) && Digit(c)
    ensures var a := Amount(whole, true, frac + [c], "", "");
            AmountOk(a) && Answer(a) == Due(a) - if c >= '5' then 1 else 0
  {
    hide Rounded, Pow, ValueOf, LeadAt, Answer;
    var a := Amount(whole, true, frac + [c], "", "");
    var s := AmountDigits(a);
    assert s == whole + frac + [c] && s[0] == whole[0];
    assert LeadAt(s) == 0;
    NothingRead();
    AnswerIs(a);
    LastDigit(whole + frac, c);
    KeptSmall(s);
    Pow18();
    LossIs(DigitOf(c));
    DropLoses(ValueOf(s), 1, 0);
    RoundedUp(ValueOf(s) / Pow(1), 0);
    PowNone();
  }

  lemma NothingRead()
    ensures Kept(CAP, "") == ValueOf("") == 0
  {}

  lemma LastDigit(s: string, c: char)
    requires Digits(s) && Digit(c)
    ensures Digits(s + [c]) && Pow(1) == 10 && ValueOf(s + [c]) % Pow(1) == DigitOf(c)
  {
    assert (s + [c])[..|s|] == s;
  }

  lemma LossIs(d: nat)
    requires d < 10
    ensures Rounded(d, -1) == if d >= 5 then 1 else 0
  {
    RoundedDown(d, 1);
  }
}
