/** The contents of JSON strings, put together. */
module JsonStrings {
  import opened Json

  /** The first `n` bytes are one unit of a string's contents. */
  predicate Unit(s: string, n: nat) {
    || (n == 1 && |s| >= 1 && Plain(s[0]))
    || (n == 2 && |s| >= 2 && s[0] == '\\' && ShortEscape(s[1]))
    || (n == 6 && |s| >= 6 && s[0] == '\\' && s[1] == 'u' && Hex(s[2]) && Hex(s[3]) && Hex(s[4]) && Hex(s[5]))
  }

  lemma UnitBody(s: string, n: nat)
    requires Unit(s, n) && StringBody(s[n..])
    ensures StringBody(s)
  {}

  lemma BodyUnit(s: string) returns (n: nat)
    requires StringBody(s) && s != ""
    ensures 0 < n <= |s| && Unit(s, n) && StringBody(s[n..])
  {
    hide ShortEscape, Hex;
    n := if Plain(s[0]) && StringBody(s[1..]) then 1
         else if |s| >= 2 && ShortEscape(s[1]) && s[0] == '\\' && StringBody(s[2..]) then 2 else 6;
  }

  lemma {:induction false} BodySum(a: string, b: string)
    requires StringBody(a) && StringBody(b)
    ensures StringBody(a + b)
    decreases |a|
  {
    hide StringBody, ShortEscape, Hex;
    if a == "" {
      assert a + b == b;
    } else {
      var n := BodyUnit(a);
      BodySum(a[n..], b);
      assert (a + b)[n..] == a[n..] + b;
      UnitBody(a + b, n);
    }
  }
}
