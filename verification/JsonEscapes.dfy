/** What a JSON string's contents stand for (section 7 of RFC 8259, section 3 of RFC 3629), against a
    writer that may spell each character in any way the grammar has: reading gives the text back in
    UTF-8, so two keys read the same exactly when they spell one text.
 */
module JsonEscapes {
  import opened Json
  import opened JsonKeys

  // ---------------------------------------------------------------- characters and their spellings

  /** A Unicode character: no surrogate. */
  predicate Character(cp: nat) { cp < 0xD800 || 0xE000 <= cp < 0x11_0000 }

  /** Hex digits in capitals or not. */
  datatype Cases = Cases(a: bool, b: bool, c: bool, d: bool)

  /** As its UTF-8 bytes, as a backslash and a letter, as `\u` and four digits, or as two of those. */
  datatype Style = Bytes | Letter | Unit(cases: Cases) | Pair(high: Cases, low: Cases)

  function HexChar(d: nat, capital: bool): (c: char)
    requires d < 16
    ensures Hex(c) && DigitValue(c) == d
  {
    if d < 10 then (('0' as int) + d) as char
    else ((if capital then 'A' as int else 'a' as int) + d - 10) as char
  }

  function FourDigits(n: nat, k: Cases): (s: string)
    requires n < 0x1_0000
    ensures |s| == 4
  {
    [HexChar(n / 0x1000, k.a), HexChar(n / 0x100 % 0x10, k.b), HexChar(n / 0x10 % 0x10, k.c), HexChar(n % 0x10, k.d)]
  }

  /** The letter after the backslash, for the eight characters that have one. */
  function LetterOf(cp: nat): string {
    if cp == 0x22 then "\"" else if cp == 0x5C then "\\" else if cp == 0x2F then "/"
    else if cp == 0x08 then "b" else if cp == 0x0C then "f" else if cp == 0x0A then "n"
    else if cp == 0x0D then "r" else if cp == 0x09 then "t" else ""
  }

  /** The styles a character has. */
  predicate Has(cp: nat, style: Style) {
    && Character(cp)
    && match style
       case Bytes => cp >= 0x20 && cp != 0x22 && cp != 0x5C
       case Letter => LetterOf(cp) != ""
       case Unit(_) => cp < 0x1_0000
       case Pair(_, _) => cp >= 0x1_0000
  }

  function UnitText(n: nat, k: Cases): string
    requires n < 0x1_0000
  {
    "\\u" + FourDigits(n, k)
  }

  function Spelt(cp: nat, style: Style): string
    requires Has(cp, style)
  {
    match style
    case Bytes => Utf8(cp)
    case Letter => "\\" + LetterOf(cp)
    case Unit(k) => UnitText(cp, k)
    case Pair(high, low) => UnitText(0xD800 + (cp - 0x1_0000) / 0x400, high) + UnitText(0xDC00 + (cp - 0x1_0000) % 0x400, low)
  }

  predicate AllHave(text: seq<nat>, styles: seq<Style>) {
    |text| == |styles| && forall k | 0 <= k < |text| :: Has(text[k], styles[k])
  }

  function Written(text: seq<nat>, styles: seq<Style>): string
    requires AllHave(text, styles)
  {
    if text == [] then "" else Spelt(text[0], styles[0]) + Written(text[1..], styles[1..])
  }

  // ---------------------------------------------------------------- UTF-8

  /** The first character of UTF-8 bytes, by the bits of its bytes, and how many it takes. */
  function FirstOf(s: string): (r: (nat, nat))
    requires s != ""
    ensures 0 < r.1 <= |s|
  {
    var b := s[0] as int;
    if 0xC0 <= b < 0xE0 && |s| > 1 then (b % 0x20 * 0x40 + s[1] as int % 0x40, 2)
    else if 0xE0 <= b < 0xF0 && |s| > 2 then (b % 0x10 * 0x1000 + s[1] as int % 0x40 * 0x40 + s[2] as int % 0x40, 3)
    else if 0xF0 <= b < 0xF8 && |s| > 3 then
      (b % 0x8 * 0x4_0000 + s[1] as int % 0x40 * 0x1000 + s[2] as int % 0x40 * 0x40 + s[3] as int % 0x40, 4)
    else (b, 1)
  }

  function FromUtf8(s: string): seq<nat>
    decreases |s|
  {
    if s == "" then [] else [FirstOf(s).0] + FromUtf8(s[FirstOf(s).1..])
  }

  lemma Utf8First(cp: nat, rest: string)
    requires cp < 0x11_0000
    ensures var s := Utf8(cp) + rest; s != "" && FirstOf(s) == (cp, |Utf8(cp)|) && s[|Utf8(cp)|..] == rest
  {
    if cp < 0x800 { ShortFirst(cp, rest); } else if cp < 0x1_0000 { ThreeFirst(cp, rest); } else { FourFirst(cp, rest); }
  }

  lemma ShortFirst(cp: nat, rest: string)
    requires cp < 0x800
    ensures var s := Utf8(cp) + rest; s != "" && FirstOf(s) == (cp, |Utf8(cp)|) && s[|Utf8(cp)|..] == rest
  {
    var s, u := Utf8(cp) + rest, Utf8(cp);
    assert s[0] == u[0];
    if cp >= 0x80 { assert s[1] == u[1]; }
  }

  /** The six bits kept in a continuation byte. */
  lemma Six(n: nat)
    ensures (0x80 + n % 0x40) % 0x40 == n % 0x40 && n == n / 0x40 * 0x40 + n % 0x40
  {}

  lemma ThreeFirst(cp: nat, rest: string)
    requires 0x800 <= cp < 0x1_0000
    ensures var s := Utf8(cp) + rest; s != "" && FirstOf(s) == (cp, |Utf8(cp)|) && s[|Utf8(cp)|..] == rest
  {
    var s, u := Utf8(cp) + rest, Utf8(cp);
    assert s[0] == u[0] && s[1] == u[1] && s[2] == u[2] && s[3..] == rest;
    Six(cp);
    Six(cp / 0x40);
    assert cp / 0x40 / 0x40 == cp / 0x1000;
    assert (0xE0 + cp / 0x1000) % 0x10 == cp / 0x1000;
  }

  lemma FourFirst(cp: nat, rest: string)
    requires 0x1_0000 <= cp < 0x11_0000
    ensures var s := Utf8(cp) + rest; s != "" && FirstOf(s) == (cp, |Utf8(cp)|) && s[|Utf8(cp)|..] == rest
  {
    var s, u := Utf8(cp) + rest, Utf8(cp);
    FourBytes(cp, u, s, rest);
    Six(cp);
    Six(cp / 0x40);
    Six(cp / 0x1000);
    assert cp / 0x40 / 0x40 == cp / 0x1000 && cp / 0x1000 / 0x40 == cp / 0x4_0000;
    assert (0xF0 + cp / 0x4_0000) % 0x8 == cp / 0x4_0000;
  }

  lemma FourBytes(cp: nat, u: string, s: string, rest: string)
    requires 0x1_0000 <= cp < 0x11_0000 && u == Utf8(cp) && s == u + rest
    ensures |u| == 4 && s[0] == u[0] && s[1] == u[1] && s[2] == u[2] && s[3] == u[3] && s[4..] == rest
  {}

  // ---------------------------------------------------------------- reading what was spelt

  lemma FourReads(n: nat, k: Cases, s: string, i: nat)
    requires n < 0x1_0000 && i + 4 <= |s| && s[i..i + 4] == FourDigits(n, k)
    ensures UnitAt(s, i) == n
  {
    hide HexChar, DigitValue;
    assert s[i] == s[i..i + 4][0] && s[i + 1] == s[i..i + 4][1] && s[i + 2] == s[i..i + 4][2] && s[i + 3] == s[i..i + 4][3];
    assert n == ((n / 0x1000 * 0x10 + n / 0x100 % 0x10) * 0x10 + n / 0x10 % 0x10) * 0x10 + n % 0x10;
  }

  lemma UnitReads(n: nat, k: Cases, rest: string)
    requires n < 0x1_0000
    ensures var s := UnitText(n, k) + rest;
            |s| >= 6 && s[0] == '\\' && s[1] == 'u' && UnitAt(s, 2) == n && s[6..] == rest
  {
    var s := UnitText(n, k) + rest;
    assert s[2..6] == FourDigits(n, k);
    FourReads(n, k, s, 2);
  }

  /** An escape that is no surrogate reads as its character. */
  lemma UnitIs(n: nat, k: Cases, rest: string)
    requires n < 0x1_0000 && Character(n)
    ensures Unescaped(UnitText(n, k) + rest) == Utf8(n) + Unescaped(rest)
  {
    hide UnitText, UnitAt, Utf8;
    UnitReads(n, k, rest);
  }

  lemma PairIs(cp: nat, high: Cases, low: Cases, rest: string)
    requires 0x1_0000 <= cp < 0x11_0000
    ensures Unescaped(Spelt(cp, Pair(high, low)) + rest) == Utf8(cp) + Unescaped(rest)
  {
    hide UnitText, UnitAt, Utf8;
    var h, l := 0xD800 + (cp - 0x1_0000) / 0x400, 0xDC00 + (cp - 0x1_0000) % 0x400;
    var more := UnitText(l, low) + rest;
    var s := UnitText(h, high) + more;
    assert Spelt(cp, Pair(high, low)) + rest == s;
    UnitReads(h, high, more);
    UnitReads(l, low, rest);
    LowThere(s, more, l);
    assert s[12..] == more[6..];
  }

  lemma LowThere(s: string, more: string, l: nat)
    requires |s| >= 6 && s[6..] == more && |more| >= 6 && more[0] == '\\' && more[1] == 'u' && UnitAt(more, 2) == l
    requires 0xDC00 <= l <= 0xDFFF
    ensures LowAt(s, 6) == l
  {
    assert s[6] == more[0] && s[7] == more[1];
    assert s[8] == more[2] && s[9] == more[3] && s[10] == more[4] && s[11] == more[5];
    assert s[8..12] == more[2..6];
  }

  lemma {:induction false} PlainThen(a: string, rest: string)
    requires '\\' !in a
    ensures Unescaped(a + rest) == a + Unescaped(rest)
    decreases |a|
  {
    hide UnitAt, LowAt, Utf8;
    if a == "" {
      assert a + rest == rest;
    } else {
      assert (a + rest)[0] == a[0] && (a + rest)[1..] == a[1..] + rest;
      PlainThen(a[1..], rest);
      assert a == [a[0]] + a[1..];
    }
  }

  lemma Utf8Plain(cp: nat)
    requires cp < 0x11_0000 && cp != 0x5C
    ensures '\\' !in Utf8(cp)
  {}

  lemma LetterIs(cp: nat, rest: string)
    requires LetterOf(cp) != ""
    ensures Unescaped("\\" + LetterOf(cp) + rest) == Utf8(cp) + Unescaped(rest)
  {
    hide UnitAt, LowAt;
    var l := LetterOf(cp);
    var s := "\\" + l + rest;
    assert |l| == 1 && s[0] == '\\' && s[1] == l[0] && s[2..] == rest && l[0] != 'u';
    assert Utf8(cp) == [Escape(l[0])];
  }

  lemma SpeltReads(cp: nat, style: Style, rest: string)
    requires Has(cp, style)
    ensures Unescaped(Spelt(cp, style) + rest) == Utf8(cp) + Unescaped(rest)
  {
    hide Unescaped, Utf8, UnitText, LetterOf;
    match style {
      case Bytes =>
        Utf8Plain(cp);
        PlainThen(Utf8(cp), rest);
      case Letter => LetterIs(cp, rest);
      case Unit(k) => UnitIs(cp, k, rest);
      case Pair(high, low) => PairIs(cp, high, low, rest);
    }
  }

  /** However a text is spelt, reading it gives its bytes in UTF-8, which decode to the text. */
  lemma {:induction false} SpellingReads(text: seq<nat>, styles: seq<Style>)
    requires AllHave(text, styles)
    ensures FromUtf8(Unescaped(Written(text, styles))) == text
    decreases |text|
  {
    hide Unescaped, Utf8, Spelt, FirstOf, Has;
    if text == [] {
      assert Unescaped("") == "" by { ReadsNothing(); }
    } else {
      var rest := Written(text[1..], styles[1..]);
      SpellingReads(text[1..], styles[1..]);
      HasCharacter(text[0], styles[0]);
      SpeltReads(text[0], styles[0], rest);
      Utf8First(text[0], Unescaped(rest));
      assert text == [text[0]] + text[1..];
    }
  }

  lemma ReadsNothing()
    ensures Unescaped("") == ""
  {}

  lemma HasCharacter(cp: nat, style: Style)
    requires Has(cp, style)
    ensures Character(cp)
  {}

  function InUtf8(text: seq<nat>): string
    requires forall k | 0 <= k < |text| :: text[k] < 0x11_0000
  {
    if text == [] then "" else Utf8(text[0]) + InUtf8(text[1..])
  }

  lemma {:induction false} SpellingBytes(text: seq<nat>, styles: seq<Style>)
    requires AllHave(text, styles)
    ensures (forall k | 0 <= k < |text| :: text[k] < 0x11_0000) && Unescaped(Written(text, styles)) == InUtf8(text)
    decreases |text|
  {
    hide Unescaped, Utf8, Spelt, Has;
    forall k | 0 <= k < |text| ensures text[k] < 0x11_0000 { HasCharacter(text[k], styles[k]); }
    if text == [] {
      ReadsNothing();
    } else {
      SpellingBytes(text[1..], styles[1..]);
      SpeltReads(text[0], styles[0], Written(text[1..], styles[1..]));
    }
  }

  /** Two spellings read the same exactly when they spell one text. */
  lemma SameReading(a: seq<nat>, s: seq<Style>, b: seq<nat>, t: seq<Style>)
    requires AllHave(a, s) && AllHave(b, t)
    ensures Unescaped(Written(a, s)) == Unescaped(Written(b, t)) <==> a == b
  {
    hide Unescaped, Written, FromUtf8, InUtf8, AllHave;
    SpellingReads(a, s);
    SpellingReads(b, t);
    SpellingBytes(a, s);
    SpellingBytes(b, t);
  }

  // ---------------------------------------------------------------- keys as texts

  function SpelledKeys(texts: seq<seq<nat>>, styles: seq<seq<Style>>): (keys: seq<string>)
    requires |texts| == |styles| && forall k | 0 <= k < |texts| :: AllHave(texts[k], styles[k])
    ensures |keys| == |texts|
  {
    seq(|texts|, k requires 0 <= k < |texts| => Written(texts[k], styles[k]))
  }

  /** Keys are unique exactly when they spell different texts, however each is spelt. */
  lemma UniqueTexts(texts: seq<seq<nat>>, styles: seq<seq<Style>>)
    requires |texts| == |styles| && forall k | 0 <= k < |texts| :: AllHave(texts[k], styles[k])
    ensures UniqueKeys(SpelledKeys(texts, styles)) <==> forall i, j | 0 <= i < j < |texts| :: texts[i] != texts[j]
  {
    hide Unescaped, Written, AllHave;
    var keys := SpelledKeys(texts, styles);
    forall i, j | 0 <= i < j < |texts| ensures Read(keys)[i] != Read(keys)[j] <==> texts[i] != texts[j] {
      SameReading(texts[i], styles[i], texts[j], styles[j]);
    }
    if UniqueKeys(keys) {
      forall i, j | 0 <= i < j < |texts| ensures texts[i] != texts[j] { assert Read(keys)[i] != Read(keys)[j]; }
    }
  }

  /** A surrogate on its own reads as the replacement character. */
  lemma LoneReads(n: nat, k: Cases, rest: string)
    requires 0xD800 <= n <= 0xDFFF && (n <= 0xDBFF ==> LowAt(rest, 0) < 0)
    ensures Unescaped(UnitText(n, k) + rest) == [0xEF as char, 0xBF as char, 0xBD as char] + Unescaped(rest)
  {
    hide UnitText, UnitAt, LowAt;
    var s := UnitText(n, k) + rest;
    UnitReads(n, k, rest);
    LowAfter(s, rest);
  }

  lemma LowAfter(s: string, rest: string)
    requires |s| >= 6 && s[6..] == rest
    ensures LowAt(s, 6) == LowAt(rest, 0)
  {
    if |rest| >= 6 {
      assert s[6] == rest[0] && s[7] == rest[1];
      assert s[8] == rest[2] && s[9] == rest[3] && s[10] == rest[4] && s[11] == rest[5];
      assert s[8..12] == rest[2..6];
    } else if |rest| >= 2 {
      assert s[6] == rest[0] && s[7] == rest[1];
    }
  }

  // ---------------------------------------------------------------- spellings are string contents

  lemma {:induction false} PlainBody(a: string, rest: string)
    requires (forall k | 0 <= k < |a| :: Plain(a[k])) && StringBody(rest)
    ensures StringBody(a + rest)
    decreases |a|
  {
    if a == "" {
      assert a + rest == rest;
    } else {
      assert (a + rest)[0] == a[0] && (a + rest)[1..] == a[1..] + rest;
      PlainBody(a[1..], rest);
    }
  }

  lemma UnitBody(n: nat, k: Cases, rest: string)
    requires n < 0x1_0000 && StringBody(rest)
    ensures StringBody(UnitText(n, k) + rest)
  {
    var s := UnitText(n, k) + rest;
    assert s[6..] == rest;
  }

  lemma SpeltBody(cp: nat, style: Style, rest: string)
    requires Has(cp, style) && StringBody(rest)
    ensures StringBody(Spelt(cp, style) + rest)
  {
    hide StringBody, UnitText;
    match style {
      case Bytes => PlainBody(Utf8(cp), rest);
      case Letter => LetterBody(LetterOf(cp), rest);
      case Unit(k) => UnitBody(cp, k, rest);
      case Pair(high, low) =>
        var h, l := 0xD800 + (cp - 0x1_0000) / 0x400, 0xDC00 + (cp - 0x1_0000) % 0x400;
        UnitBody(l, low, rest);
        UnitBody(h, high, UnitText(l, low) + rest);
        assert Spelt(cp, style) + rest == UnitText(h, high) + (UnitText(l, low) + rest);
    }
  }

  lemma LetterBody(l: string, rest: string)
    requires |l| == 1 && ShortEscape(l[0]) && StringBody(rest)
    ensures StringBody("\\" + l + rest)
  {
    var s := "\\" + l + rest;
    assert s[0] == '\\' && s[1] == l[0] && s[2..] == rest;
  }

  lemma {:induction false} SpellingBody(text: seq<nat>, styles: seq<Style>)
    requires AllHave(text, styles)
    ensures StringBody(Written(text, styles))
    decreases |text|
  {
    hide Has, Spelt, StringBody;
    if text == [] {
      assert StringBody("") by { NoBody(); }
    } else {
      SpellingBody(text[1..], styles[1..]);
      SpeltBody(text[0], styles[0], Written(text[1..], styles[1..]));
    }
  }

  lemma NoBody()
    ensures StringBody("")
  {}
}
