/** What a raw span means once it was made safe to send: a control byte reads back as itself. */
module SanitizedText {
  import opened Json
  import opened JsonKeys
  import opened Translator

  lemma SafeReads(c: char, rest: string)
    requires c != '\\'
    ensures Unescaped(Safe(c) + rest) == [c] + Unescaped(rest)
  {
    hide Utf8;
    var s := Safe(c) + rest;
    if c >= ' ' {
      assert s[1..] == rest;
    } else {
      var n := c as int;
      HexReads(n / 16);
      HexReads(n % 16);
      assert s[0] == '\\' && s[1] == 'u' && s[2] == '0' && s[3] == '0' && s[4] == HEX[n / 16] && s[5] == HEX[n % 16];
      assert s[6..] == rest;
      UnitReads(s, n);
      assert Utf8(n) == [c] by { LowByte(n); }
    }
  }

  lemma LowByte(n: nat)
    requires n < 0x80
    ensures Utf8(n) == [n as char]
  {}

  lemma HexReads(d: nat)
    requires d < 16
    ensures Hex(HEX[d]) && DigitValue(HEX[d]) == d
  {}

  lemma UnitReads(s: string, n: nat)
    requires |s| >= 6 && n < 32 && s[2] == '0' && s[3] == '0' && s[4] == HEX[n / 16] && s[5] == HEX[n % 16]
    ensures UnitAt(s, 2) == n
  {
    HexReads(n / 16);
    HexReads(n % 16);
    var t := s[2..6];
    assert t[0] == '0' && t[1] == '0' && t[2] == HEX[n / 16] && t[3] == HEX[n % 16];
  }

  /** A span without escapes means itself, made safe, whatever bytes it holds. */
  lemma {:induction false} SanitizedReads(raw: string)
    requires '\\' !in raw
    ensures Unescaped(Sanitized(raw)) == raw
    decreases |raw|
  {
    hide Unescaped, Safe;
    if raw == "" {
      NothingReads();
    } else {
      SanitizedReads(raw[1..]);
      SafeReads(raw[0], Sanitized(raw[1..]));
      assert raw == [raw[0]] + raw[1..];
    }
  }

  lemma NothingReads()
    ensures Unescaped("") == ""
  {}

  /** Nothing that goes out holds a control byte. */
  lemma {:induction false} SanitizedClean(raw: string)
    ensures forall k | 0 <= k < |Sanitized(raw)| :: Sanitized(raw)[k] >= ' '
    decreases |raw|
  {
    if raw != "" { SanitizedClean(raw[1..]); }
  }
}
