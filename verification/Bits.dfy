/** Single bits of a 64-bit word, set, cleared and read by shifting. */
module Bits {

  lemma Succ(d: bv7)
    requires d as int < 63
    ensures (d + 1) as int == d as int + 1 && d + 1 < 64
  {}

  /** A bit's number as a shift amount. */
  function Shift(d: nat): (r: bv7)
    requires d < 64
    ensures r as int == d && r < 64
  {
    if d == 0 then 0 else Succ(Shift(d - 1)); Shift(d - 1) + 1
  }

  lemma ShiftInjective(d: nat, e: nat)
    requires d < 64 && e < 64
    ensures Shift(d) == Shift(e) <==> d == e
  {
    if Shift(d) == Shift(e) { assert Shift(d) as int == Shift(e) as int; }
  }

  predicate BitAt(w: bv64, s: bv7)
    requires s < 64
  {
    (w >> s) & 1 == 1
  }

  function PutAt(w: bv64, s: bv7, on: bool): bv64
    requires s < 64
  {
    if on then w | (1 << s) else w & !(1 << s)
  }

  lemma SetSame(w: bv64, s: bv7)
    requires s < 64
    ensures BitAt(PutAt(w, s, true), s)
  {}

  lemma SetOther(w: bv64, s: bv7, t: bv7)
    requires s < 64 && t < 64 && s != t
    ensures BitAt(PutAt(w, s, true), t) == BitAt(w, t)
  {}

  lemma ClearSame(w: bv64, s: bv7)
    requires s < 64
    ensures !BitAt(PutAt(w, s, false), s)
  {}

  lemma ClearOther(w: bv64, s: bv7, t: bv7)
    requires s < 64 && t < 64 && s != t
    ensures BitAt(PutAt(w, s, false), t) == BitAt(w, t)
  {}

  predicate Bit(w: bv64, d: nat)
    requires d < 64
  {
    BitAt(w, Shift(d))
  }

  function Put(w: bv64, d: nat, on: bool): bv64
    requires d < 64
  {
    PutAt(w, Shift(d), on)
  }

  /** Setting or clearing one bit leaves the others. */
  lemma PutBit(w: bv64, d: nat, on: bool, e: nat)
    requires d < 64 && e < 64
    ensures Bit(Put(w, d, on), e) == if e == d then on else Bit(w, e)
  {
    hide BitAt, PutAt;
    ShiftInjective(d, e);
    var s, t := Shift(d), Shift(e);
    if d == e {
      if on { SetSame(w, s); } else { ClearSame(w, s); }
    } else {
      if on { SetOther(w, s, t); } else { ClearOther(w, s, t); }
    }
  }
}
