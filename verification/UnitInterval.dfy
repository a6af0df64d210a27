/** Whether a JSON number lies in [0, 1], decided on its digits (`unit_interval` in
    provider/src/translate_anthropic.cpp).
 */
module UnitInterval {
  import opened Options
  import opened Json
  import opened Decimals

  /** 0 <= (-1)^minus * m * 10^e <= 1, in whole numbers. */
  predicate InUnit(minus: bool, m: nat, e: int) {
    m == 0 || (!minus && if e >= 0 then m * Pow(e) <= 1 else m <= Pow(-e))
  }

  /** Between two powers of ten, the scale decides, but for the lower power itself. */
  lemma UnitExactly(m: nat, e: int, p: nat)
    requires Pow(p) <= m < Pow(p + 1)
    ensures InUnit(false, m, e) <==> p + e < 0 || (p + e == 0 && m == Pow(p))
  {
    if e >= 0 {
      ScaledUp(m, e);
      PowGrows(0, p);
    } else if p + e < 0 {
      PowGrows(p + 1, -e);
    } else {
      PowGrows(-e, p);
    }
  }

  lemma ScaledUp(m: nat, e: nat)
    requires m >= 1
    ensures m * Pow(e) <= 1 <==> m == 1 && e == 0
  {
    if e > 0 {
      assert Pow(e) >= 10;
      assert m * Pow(e) >= 1 * Pow(e);
    }
  }

  // ---------------------------------------------------------------- reading the text

  predicate MarkByte(c: char) { c == 'e' || c == 'E' }

  /** Where the whole part ends. */
  method FindEnd(t: string, i: nat, ghost n: Number) returns (k: nat)
    requires NumberOk(n) && t == NumberText(n) && i == Base(n)
    ensures k == Base(n) + |n.whole|
  {
    hide NumberText;
    TextParts(n);
    k := i;
    while k < |t| && t[k] != '.' && !MarkByte(t[k])
      invariant i <= k <= Base(n) + |n.whole|
    {
      if k == Base(n) + |n.whole| { AfterWhole(n); }
      k := k + 1;
    }
    InWhole(n, k);
  }

  lemma InWhole(n: Number, k: nat)
    requires NumberOk(n) && Base(n) <= k
    ensures k < Base(n) + |n.whole| ==> k < |NumberText(n)| && Digit(NumberText(n)[k])
  {
    hide NumberText;
    TextParts(n);
    if k < Base(n) + |n.whole| { assert NumberText(n)[Base(n) + (k - Base(n))] == n.whole[k - Base(n)]; }
  }

  lemma AfterWhole(n: Number)
    requires NumberOk(n)
    ensures var t, k := NumberText(n), Base(n) + |n.whole|;
            k < |t| ==> t[k] == '.' || MarkByte(t[k])
  {
    hide NumberText;
    TextParts(n);
    var t, k := NumberText(n), Base(n) + |n.whole|;
    if n.frac == "" && n.mark != "" { assert t[MarkAt(n) + 0] == n.mark[0]; }
  }

  /** `i` is past the first `k` digits. */
  predicate Past(n: Number, k: nat, i: nat) {
    k <= |Significand(n)| &&
    ((i == Base(n) + k && k <= |n.whole|) || (n.frac != "" && k >= |n.whole| && i == Base(n) + k + 1))
  }

  /** What the first `k` digits told: the leading one, its power of ten, and whether one follows. */
  predicate Seen(n: Number, k: nat, lead: Option<char>, pos: int, tail: bool)
    requires k <= |Significand(n)|
  {
    var s, j := Significand(n), LeadAt(Significand(n));
    if lead.None? then k <= j && !tail
    else j < k && lead.value == s[j] && pos == |n.whole| - 1 - j && (tail <==> !AllZero(s[j + 1..k]))
  }

  lemma SeenNext(n: Number, k: nat, lead: Option<char>, pos: int, tail: bool)
    requires k < |Significand(n)| && Seen(n, k, lead, pos, tail)
    ensures var c, place := Significand(n)[k], |n.whole| - 1 - k;
            if c == '0' then Seen(n, k + 1, lead, pos, tail)
            else if lead.None? then Seen(n, k + 1, Some(c), place, false)
            else Seen(n, k + 1, lead, pos, true)
    ensures lead.None? ==> !tail
  {
    hide Significand;
    var s, j := Significand(n), LeadAt(Significand(n));
    if lead.Some? {
      assert s[j + 1..k + 1] == s[j + 1..k] + [s[k]];
      ZeroLast(s[j + 1..k + 1]);
      assert s[j + 1..k + 1][..k - j - 1] == s[j + 1..k];
    }
  }

  /** The byte at `i` is the point, or the next digit. */
  lemma NextByte(n: Number, k: nat, i: nat)
    requires NumberOk(n) && Past(n, k, i) && i < MarkAt(n)
    ensures i < |NumberText(n)| && !MarkByte(NumberText(n)[i])
    ensures NumberText(n)[i] == '.' ==> k == |n.whole| && Past(n, k, i + 1)
    ensures NumberText(n)[i] != '.' ==> k < |Significand(n)| && NumberText(n)[i] == Significand(n)[k] && Past(n, k + 1, i + 1)
  {
    hide NumberText;
    TextParts(n);
    if i == Base(n) + |n.whole| && k == |n.whole| && n.frac != "" {
      assert NumberText(n)[i] == '.';
    } else {
      DigitIs(n, k);
    }
  }

  lemma AtMark(n: Number, k: nat, i: nat)
    requires NumberOk(n) && Past(n, k, i)
    ensures i <= MarkAt(n) && (i == MarkAt(n) ==> k == |Significand(n)|)
    ensures i == MarkAt(n) < |NumberText(n)| ==> MarkByte(NumberText(n)[i])
    ensures MarkAt(n) <= |NumberText(n)|
  {
    hide NumberText;
    TextParts(n);
    if n.mark != "" { assert NumberText(n)[MarkAt(n) + 0] == n.mark[0]; }
  }

  /** The digits, up to the exponent mark. */
  method ReadDigits(t: string, i0: nat, place0: int, ghost n: Number) returns (i: nat, lead: Option<char>, pos: int, tail: bool)
    requires NumberOk(n) && t == NumberText(n) && i0 == Base(n) && place0 == |n.whole| - 1
    ensures i == MarkAt(n) <= |t| && Seen(n, |Significand(n)|, lead, pos, tail)
  {
    hide NumberText, Significand, Past, Seen;
    i, lead, pos, tail := i0, None, 0, false;
    var place := place0;
    ghost var k := 0;
    assert Past(n, 0, i) && Seen(n, 0, lead, pos, tail) by { SeenNone(n); }
    AtMark(n, k, i);
    while i < |t| && !MarkByte(t[i])
      invariant Past(n, k, i) && i <= MarkAt(n) <= |t| && k <= |Significand(n)| && Seen(n, k, lead, pos, tail) && place == |n.whole| - 1 - k
      decreases |t| - i
    {
      AtMark(n, k, i);
      NextByte(n, k, i);
      if t[i] != '.' {
        SeenNext(n, k, lead, pos, tail);
        if t[i] != '0' && lead.Some? { tail := true; }
        if t[i] != '0' && lead.None? { lead, pos := Some(t[i]), place; }
        place := place - 1;
        k := k + 1;
      }
      i := i + 1;
      AtMark(n, k, i);
    }
    AtMark(n, k, i);
    if i < MarkAt(n) { NextByte(n, k, i); }
  }

  lemma SeenNone(n: Number)
    ensures Past(n, 0, Base(n)) && Seen(n, 0, None, 0, false)
  {}

  // ---------------------------------------------------------------- the exponent

  const CAP: nat := 100000

  /** The exponent after its mark. */
  method ReadExponent(t: string, i0: nat, cap: nat, ghost n: Number) returns (e: nat, negative: bool)
    requires NumberOk(n) && t == NumberText(n) && i0 == MarkAt(n) <= |t|
    ensures e == Kept(cap, n.exp) && (negative <==> Negative(n.mark))
  {
    hide NumberText;
    TextParts(n);
    e, negative := 0, false;
    if i0 == |t| { return; }
    var i := i0 + 1;
    if i < |t| && (t[i] == '+' || t[i] == '-') {
      SignIs(n);
      negative := t[i] == '-';
      i := i + 1;
    } else {
      NoSign(n);
    }
    ghost var q := 0;
    assert n.exp[..0] == "";
    while i < |t|
      invariant q <= |n.exp| && i == MarkAt(n) + |n.mark| + q && Digits(n.exp[..q]) && e == Kept(cap, n.exp[..q])
    {
      assert t[MarkAt(n) + |n.mark| + q] == n.exp[q];
      KeptNext(cap, n.exp, q);
      if e < cap { e := e * 10 + DigitOf(t[i]); }
      i, q := i + 1, q + 1;
    }
    assert n.exp[..q] == n.exp;
  }

  lemma SignIs(n: Number)
    requires NumberOk(n) && MarkAt(n) + 1 < |NumberText(n)|
    requires var c := NumberText(n)[MarkAt(n) + 1]; c == '+' || c == '-'
    ensures |n.mark| == 2 && NumberText(n)[MarkAt(n) + 1] == n.mark[1]
  {
    hide NumberText;
    TextParts(n);
    assert n.mark != "" && n.exp != "";
    assert NumberText(n)[MarkAt(n) + |n.mark| + 0] == n.exp[0];
  }

  lemma NoSign(n: Number)
    requires NumberOk(n) && MarkAt(n) < |NumberText(n)|
    requires var i := MarkAt(n) + 1; i < |NumberText(n)| ==> NumberText(n)[i] != '+' && NumberText(n)[i] != '-'
    ensures |n.mark| == 1
  {
    hide NumberText;
    TextParts(n);
    assert n.mark != "";
    assert NumberText(n)[MarkAt(n) + (|n.mark| - 1)] == n.mark[|n.mark| - 1];
  }

  // ---------------------------------------------------------------- the decision

  /** The power of ten of the leading digit as written, before the exponent moves it. */
  function LeadPlace(n: Number): int { |n.whole| - 1 - LeadAt(Significand(n)) }

  function KeptScale(n: Number): int
    requires NumberOk(n)
  {
    Signed(n.mark, Kept(CAP, n.exp)) - |n.frac|
  }

  /** Nothing but zeros after a leading 1. */
  predicate One(n: Number) {
    var s := Significand(n);
    LeadAt(s) < |s| && s[LeadAt(s)] == '1' && AllZero(s[LeadAt(s) + 1..])
  }

  /** Scaled by any exponent, the leading digit decides. */
  lemma LeadDecides(n: Number, e: int)
    requires NumberOk(n) && Mantissa(n) != 0
    ensures InUnit(false, Mantissa(n), e - |n.frac|) <==> LeadPlace(n) + e < 0 || (LeadPlace(n) + e == 0 && One(n))
  {
    hide InUnit;
    SignificandDigits(n);
    var s, j := Significand(n), LeadAt(Significand(n));
    ZeroValue(s);
    LeadBounds(s, j);
    UnitExactly(Mantissa(n), e - |n.frac|, |s| - 1 - j);
  }

  /** The exponent was cut, and the leading digit's distance from the units lies between what was
      kept of it and the whole. */
  predicate Misled(n: Number)
    requires NumberOk(n)
  {
    var far := if Negative(n.mark) then LeadPlace(n) else -LeadPlace(n);
    var kept, whole := Kept(CAP, n.exp), ValueOf(n.exp);
    && !n.minus && Mantissa(n) != 0
    && (kept < far || (kept == far && One(n) != Negative(n.mark)))
    && (far < whole || (far == whole && One(n) == Negative(n.mark)))
  }

  /** The kept exponent decides as the whole one does, but there. */
  lemma KeptDecides(n: Number)
    requires NumberOk(n)
    ensures (InUnit(n.minus, Mantissa(n), KeptScale(n)) <==> InUnit(n.minus, Mantissa(n), Scale(n))) <==> !Misled(n)
  {
    hide LeadAt, Significand, One;
    KeptBounds(CAP, n.exp);
    if !n.minus && Mantissa(n) != 0 {
      LeadDecides(n, Signed(n.mark, Kept(CAP, n.exp)));
      LeadDecides(n, Exponent(n));
    }
  }

  /** No text this short is misread. */
  lemma ShortIsRight(n: Number)
    requires NumberOk(n) && |NumberText(n)| < CAP
    ensures !Misled(n)
  {
    hide NumberText, One;
    TextParts(n);
    KeptBounds(CAP, n.exp);
  }

  /** 10^k with an exponent of -10^q: in [0, 1], and answered not to be. */
  lemma LongMisleads(k: nat, q: nat)
    requires CAP < k < Pow(q)
    ensures var n := Number(false, OneZeros(k), "", "e-", OneZeros(q)); NumberOk(n) && Misled(n)
  {
    hide Pow, OneZeros, LeadPlace, Mantissa, One;
    OneZerosRead(k);
    OneZerosRead(q);
    FiveIs();
    OneZerosKept(CAP, q, 5);
    TenPlace(Number(false, OneZeros(k), "", "e-", OneZeros(q)), k);
    if q < 5 { PowGrows(q, 5); }
  }

  lemma TenPlace(n: Number, k: nat)
    requires NumberOk(n) && n.whole == OneZeros(k) && n.frac == ""
    ensures LeadPlace(n) == k && Mantissa(n) != 0
  {
    OneZerosRead(k);
    assert Significand(n) == n.whole;
  }

  lemma FiveIs()
    ensures Pow(5) == CAP == 10 * Pow(4)
  {}

  lemma NoLead(n: Number, pos: int, tail: bool)
    requires NumberOk(n) && Seen(n, |Significand(n)|, None, pos, tail)
    ensures Mantissa(n) == 0
  {
    SignificandDigits(n);
    ZeroValue(Significand(n));
  }

  lemma SomeLead(n: Number, lead: char, pos: int, tail: bool)
    requires NumberOk(n) && Seen(n, |Significand(n)|, Some(lead), pos, tail)
    ensures Mantissa(n) != 0
  {
    SignificandDigits(n);
    ZeroValue(Significand(n));
    assert Significand(n)[LeadAt(Significand(n))] != '0';
  }

  lemma MinusIs(n: Number)
    requires NumberOk(n)
    ensures NumberText(n) != "" && (NumberText(n)[0] == '-' <==> n.minus)
  {
    hide NumberText;
    TextParts(n);
    if !n.minus { assert NumberText(n)[Base(n) + 0] == n.whole[0]; }
  }

  lemma SeenAll(n: Number, lead: char, pos: int, tail: bool)
    requires NumberOk(n) && Seen(n, |Significand(n)|, Some(lead), pos, tail)
    ensures Mantissa(n) != 0 && pos == LeadPlace(n) && (One(n) <==> lead == '1' && !tail)
  {
    hide Mantissa;
    SomeLead(n, lead, pos, tail);
    var s, j := Significand(n), LeadAt(Significand(n));
    assert s[j + 1..|s|] == s[j + 1..];
  }

  /** For every JSON number: whether it lies in [0, 1] with its exponent as kept, which is whether it
      does exactly when it is not misled, as no number of fewer than 100000 bytes is. */
  method Decide(t: string, ghost n: Number) returns (inside: bool)
    requires NumberOk(n) && t == NumberText(n)
    ensures inside <==> InUnit(n.minus, Mantissa(n), KeptScale(n))
    ensures (inside <==> InUnit(n.minus, Mantissa(n), Scale(n))) <==> !Misled(n)
    ensures |t| < CAP ==> !Misled(n)
  {
    hide NumberText, Significand, Seen, Mantissa, Scale, Misled, One, LeadPlace;
    MinusIs(n);
    KeptDecides(n);
    if |t| < CAP { ShortIsRight(n); }
    var i := if |t| > 0 && t[0] == '-' then 1 else 0;
    var negative := i == 1;
    var end := FindEnd(t, i, n);
    var j, lead, pos, tail := ReadDigits(t, i, end - i - 1, n);
    var e, expNegative := ReadExponent(t, j, CAP, n);
    if lead.None? {
      NoLead(n, pos, tail);
      return true;
    }
    SeenAll(n, lead.value, pos, tail);
    if negative { return false; }
    LeadDecides(n, Signed(n.mark, e));
    var x := pos + if expNegative then -(e as int) else e;
    return x < 0 || (x == 0 && lead.value == '1' && !tail);
  }
}
