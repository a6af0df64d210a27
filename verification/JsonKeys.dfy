/** Whether an object names a key twice (`Parser::keys_fresh` in provider/include/provider/json.hpp):
    a filter of 64 bits in front of an exact check, proved to be exact itself. Keys are compared as
    they read, not as they are written.
 */
module JsonKeys {
  import opened Json

  // ---------------------------------------------------------------- what a key reads as

  function HexFour(s: string): (r: nat)
    requires |s| == 4 && Hex(s[0]) && Hex(s[1]) && Hex(s[2]) && Hex(s[3])
    ensures r < 0x1_0000
  {
    ((DigitValue(s[0]) * 16 + DigitValue(s[1])) * 16 + DigitValue(s[2])) * 16 + DigitValue(s[3])
  }

  /** The code unit four digits at `i` write, if they are hex. */
  function UnitAt(raw: string, i: nat): (r: int)
    ensures -1 <= r < 0x1_0000
  {
    if i + 4 <= |raw| && Hex(raw[i]) && Hex(raw[i + 1]) && Hex(raw[i + 2]) && Hex(raw[i + 3]) then HexFour(raw[i..i + 4]) else -1
  }

  /** The bytes of a code point in UTF-8. */
  function Utf8(cp: nat): string
    requires cp < 0x11_0000
  {
    if cp < 0x80 then [cp as char]
    else if cp < 0x800 then [(0xC0 + cp / 0x40) as char, (0x80 + cp % 0x40) as char]
    else if cp < 0x1_0000 then [(0xE0 + cp / 0x1000) as char, (0x80 + cp / 0x40 % 0x40) as char, (0x80 + cp % 0x40) as char]
    else [(0xF0 + cp / 0x4_0000) as char, (0x80 + cp / 0x1000 % 0x40) as char, (0x80 + cp / 0x40 % 0x40) as char,
          (0x80 + cp % 0x40) as char]
  }

  /** The low half of a surrogate pair whose high half ends at `i`. */
  function LowAt(raw: string, i: nat): int {
    if i + 2 <= |raw| && raw[i] == '\\' && raw[i + 1] == 'u' && 0xDC00 <= UnitAt(raw, i + 2) <= 0xDFFF then UnitAt(raw, i + 2) else -1
  }

  /** What a byte after a backslash stands for. */
  function Escape(c: char): char {
    if c == 'n' then '\n' else if c == 'r' then '\r' else if c == 't' then '\t'
    else if c == 'b' then 8 as char else if c == 'f' then 12 as char else c
  }

  /** A string's contents as they read: escapes decoded, surrogate pairs joined, a lone surrogate
      replaced, and nothing after a `\u` that is cut short. */
  function Unescaped(raw: string): string
    decreases |raw|
  {
    if raw == "" then ""
    else if raw[0] != '\\' || |raw| == 1 then [raw[0]] + Unescaped(raw[1..])
    else if raw[1] != 'u' then [Escape(raw[1])] + Unescaped(raw[2..])
    else
      var cp, low := UnitAt(raw, 2), LowAt(raw, 6);
      if cp < 0 then ""
      else if 0xD800 <= cp <= 0xDBFF && low >= 0 then
        assert |raw| >= 12;
        Utf8(0x1_0000 + (cp - 0xD800) * 0x400 + (low - 0xDC00)) + Unescaped(raw[12..])
      else Utf8(if 0xD800 <= cp <= 0xDFFF then 0xFFFD else cp) + Unescaped(raw[6..])
  }

  lemma {:induction false} PlainReads(raw: string)
    requires '\\' !in raw
    ensures Unescaped(raw) == raw
    decreases |raw|
  {
    if raw != "" { PlainReads(raw[1..]); }
  }

  // ---------------------------------------------------------------- distinct keys

  predicate Distinct(keys: seq<string>) { forall i, j | 0 <= i < j < |keys| :: keys[i] != keys[j] }

  function Read(keys: seq<string>): (r: seq<string>)
    ensures |r| == |keys|
  {
    seq(|keys|, i requires 0 <= i < |keys| => Unescaped(keys[i]))
  }

  /** No two keys read the same. */
  predicate UniqueKeys(keys: seq<string>) { Distinct(Read(keys)) }

  lemma PlainKeys(keys: seq<string>)
    requires forall k <- keys :: '\\' !in k
    ensures Read(keys) == keys
  {
    forall i | 0 <= i < |keys| ensures Read(keys)[i] == keys[i] { PlainReads(keys[i]); }
  }

  /** Keys that read apart are written apart. */
  lemma ReadApart(keys: seq<string>)
    requires UniqueKeys(keys)
    ensures Distinct(keys)
  {
    forall i, j | 0 <= i < j < |keys| ensures keys[i] != keys[j] { assert Read(keys)[i] != Read(keys)[j]; }
  }

  // ---------------------------------------------------------------- sorted keys

  /** `a` does not come after `b`, byte by byte. */
  predicate Before(a: string, b: string) { a == "" || (b != "" && (a[0] < b[0] || (a[0] == b[0] && Before(a[1..], b[1..])))) }

  lemma {:induction false} BeforeTotal(a: string, b: string)
    ensures Before(a, b) || Before(b, a)
    ensures Before(a, b) && Before(b, a) ==> a == b
    decreases |a|
  {
    if a != "" && b != "" && a[0] == b[0] {
      BeforeTotal(a[1..], b[1..]);
      assert a == [a[0]] + a[1..] && b == [b[0]] + b[1..];
    }
  }

  lemma {:induction false} BeforeChain(a: string, b: string, c: string)
    requires Before(a, b) && Before(b, c)
    ensures Before(a, c)
    decreases |a|
  {
    if a != "" && a[0] == b[0] && b[0] == c[0] { BeforeChain(a[1..], b[1..], c[1..]); }
  }

  predicate InOrder(s: seq<string>) { forall i, j | 0 <= i < j < |s| :: Before(s[i], s[j]) }

  /** In its place among sorted keys. */
  function Insert(k: string, s: seq<string>): (r: seq<string>)
    ensures multiset(r) == multiset{k} + multiset(s)
  {
    if s == [] || Before(k, s[0]) then
      [k] + s
    else
      assert s == [s[0]] + s[1..];
      [s[0]] + Insert(k, s[1..])
  }

  lemma {:induction false} InsertOrder(k: string, s: seq<string>)
    requires InOrder(s)
    ensures InOrder(Insert(k, s))
    decreases |s|
  {
    if s == [] || Before(k, s[0]) {
      forall j | 0 <= j < |s| ensures Before(k, s[j]) { if j > 0 { BeforeChain(k, s[0], s[j]); } }
    } else {
      InsertOrder(k, s[1..]);
      BeforeTotal(k, s[0]);
      forall j | 0 <= j < |Insert(k, s[1..])| ensures Before(s[0], Insert(k, s[1..])[j]) {
        assert Insert(k, s[1..])[j] in multiset(Insert(k, s[1..]));
        assert Insert(k, s[1..])[j] == k || Insert(k, s[1..])[j] in s[1..];
      }
    }
  }

  function Sorted(keys: seq<string>): (r: seq<string>)
    ensures multiset(r) == multiset(keys)
  {
    if keys == [] then []
    else
      assert keys == [keys[0]] + keys[1..];
      Insert(keys[0], Sorted(keys[1..]))
  }

  lemma {:induction false} SortedOrder(keys: seq<string>)
    ensures InOrder(Sorted(keys))
    decreases |keys|
  {
    if keys != [] {
      SortedOrder(keys[1..]);
      InsertOrder(keys[0], Sorted(keys[1..]));
    }
  }

  /** Distinct means counted once. */
  lemma {:induction false} DistinctCounts(s: seq<string>)
    ensures Distinct(s) <==> forall k :: multiset(s)[k] <= 1
    decreases |s|
  {
    if s != [] {
      var rest := s[1..];
      assert s == [s[0]] + rest;
      DistinctCounts(rest);
      assert Distinct(s) <==> Distinct(rest) && s[0] !in rest by { DistinctFirst(s); }
      if Distinct(rest) && s[0] !in rest {
        forall k ensures multiset(s)[k] <= 1 { assert k == s[0] ==> multiset(rest)[k] == 0; }
      } else if s[0] in rest {
        assert multiset(s)[s[0]] >= 2;
      } else {
        var k :| multiset(rest)[k] > 1;
        assert multiset(s)[k] > 1;
      }
    }
  }

  lemma DistinctFirst(s: seq<string>)
    requires s != []
    ensures Distinct(s) <==> Distinct(s[1..]) && s[0] !in s[1..]
  {
    if Distinct(s) {
      forall j | 0 <= j < |s[1..]| ensures s[1..][j] != s[0] { assert s[1..][j] == s[j + 1]; }
    }
    if Distinct(s[1..]) && s[0] !in s[1..] {
      forall i, j | 0 <= i < j < |s| ensures s[i] != s[j] {
        assert s[j] == s[1..][j - 1];
        if i > 0 { assert s[i] == s[1..][i - 1]; }
      }
    }
  }

  /** Sorted keys are distinct if no neighbours are the same. */
  lemma NeighboursTell(s: seq<string>)
    requires InOrder(s) && forall i | 0 <= i < |s| - 1 :: s[i] != s[i + 1]
    ensures Distinct(s)
  {
    forall i, j | 0 <= i < j < |s| ensures s[i] != s[j] {
      if s[i] == s[j] && j > i + 1 {
        assert Before(s[i], s[i + 1]) && Before(s[i + 1], s[j]);
        BeforeTotal(s[i], s[i + 1]);
      }
    }
  }

  /** Sorts, and looks at neighbours. */
  method SortedUnique(keys: seq<string>) returns (unique: bool)
    ensures unique <==> Distinct(keys)
  {
    var s := Sorted(keys);
    DistinctCounts(keys);
    DistinctCounts(s);
    SortedOrder(keys);
    for i := 0 to |s| - if |s| == 0 then 0 else 1
      invariant forall k | 0 <= k < i :: s[k] != s[k + 1]
    {
      if s[i] == s[i + 1] { return false; }
    }
    NeighboursTell(s);
    return true;
  }

  // ---------------------------------------------------------------- the exact check

  const PAIRWISE: nat := 16

  /** `keys_unique`: unescaped only when a key holds a backslash, pair by pair while there are few,
      sorted past that. */
  method KeysUnique(keys: seq<string>) returns (unique: bool)
    ensures unique <==> UniqueKeys(keys)
  {
    hide Distinct;
    var escaped := false;
    for k := 0 to |keys|
      invariant escaped <==> exists i | 0 <= i < k :: '\\' in keys[i]
    {
      escaped := escaped || '\\' in keys[k];
    }
    if escaped {
      var u := Read(keys);
      unique := SortedUnique(u);
      return;
    }
    PlainKeys(keys);
    if |keys| <= PAIRWISE {
      unique := PairsUnique(keys);
    } else {
      unique := SortedUnique(keys);
    }
  }

  method PairsUnique(keys: seq<string>) returns (unique: bool)
    ensures unique <==> Distinct(keys)
  {
    for a := 1 to if |keys| == 0 then 1 else |keys|
      invariant forall i, j | 0 <= i < j < a && j < |keys| :: keys[i] != keys[j]
    {
      for b := 0 to a
        invariant forall i | 0 <= i < b :: keys[i] != keys[a]
      {
        if keys[a] == keys[b] { return false; }
      }
    }
    return true;
  }

  // ---------------------------------------------------------------- the filter

  /** One of 64 bits for a key, from its length and end bytes. */
  function Bit(key: string): (b: nat)
    ensures b < 64
  {
    (|key| * 7 + if key == "" then 0 else (key[0] as int) * 3 + key[|key| - 1] as int) % 64
  }

  /** `keys_fresh`: keys on bits of their own are distinct; any other are looked at exactly. */
  method KeysFresh(keys: seq<string>, escaped: bool) returns (unique: bool)
    requires !escaped ==> forall k <- keys :: '\\' !in k
    ensures unique <==> UniqueKeys(keys)
  {
    hide Unescaped;
    if |keys| < 2 { return true; }
    if escaped {
      unique := KeysUnique(keys);
      return;
    }
    PlainKeys(keys);
    var seen: set<nat> := {};
    for k := 0 to |keys|
      invariant forall i | 0 <= i < k :: Bit(keys[i]) in seen
      invariant forall i, j | 0 <= i < j < k :: keys[i] != keys[j]
    {
      var bit := Bit(keys[k]);
      if bit in seen {
        unique := KeysUnique(keys);
        return;
      }
      seen := seen + {bit};
    }
    return true;
  }
}
