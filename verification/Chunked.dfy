/** Chunked transfer coding (section 7.1 of RFC 9112): the decoder that takes a stream in any
    pieces (net/include/net/http.hpp) and the framing the gateway writes (gateway/src/stream.hpp).
 */
module Chunked {

  import opened Options
  import opened Parts
  import opened Json

  const MAX_BODY: nat := 0x100_0000
  const MAX_SIZE_LINE: nat := 64
  const MAX_HEADER: nat := 0x8000

  // ---------------------------------------------------------------- chunk sizes

  predicate AllHex(s: string) { forall k | 0 <= k < |s| :: Hex(s[k]) }

  function HexValue(s: string): nat
    requires AllHex(s)
  {
    if s == "" then 0 else HexValue(s[..|s| - 1]) * 16 + DigitValue(s[|s| - 1])
  }

  /** How many hex digits a line begins with. */
  function HexPrefix(line: string): (n: nat)
    ensures n <= |line| && AllHex(line[..n]) && (n < |line| ==> !Hex(line[n]))
  {
    if line == "" || !Hex(line[0]) then 0
    else
      var n := HexPrefix(line[1..]);
      assert line[..n + 1] == [line[0]] + line[1..][..n];
      n + 1
  }

  function BlankRun(s: string): (n: nat)
    ensures n <= |s|
  {
    if s != "" && (s[0] == ' ' || s[0] == '\t') then 1 + BlankRun(s[1..]) else 0
  }

  /** A size line without its CRLF: digits, then nothing or blanks and an extension. */
  function SizeOf(line: string): Option<nat> {
    var n := HexPrefix(line);
    var j := n + BlankRun(line[n..]);
    if n == 0 || HexValue(line[..n]) > MAX_BODY then None
    else if (j < |line| && line[j] != ';') || '\r' in line[j..] || '\n' in line[j..] then None
    else Some(HexValue(line[..n]))
  }

  lemma {:induction false} ValueGrows(s: string, n: nat)
    requires AllHex(s) && n <= |s|
    ensures HexValue(s[..n]) <= HexValue(s)
    decreases |s|
  {
    if n < |s| {
      ValueGrows(s[..|s| - 1], n);
      assert s[..|s| - 1][..n] == s[..n];
    } else {
      assert s[..n] == s;
    }
  }

  lemma {:induction false} PrefixIs(line: string, n: nat)
    requires n <= |line| && AllHex(line[..n]) && (n < |line| ==> !Hex(line[n]))
    ensures HexPrefix(line) == n
    decreases n
  {
    if n > 0 {
      assert Hex(line[..n][0]);
      assert line[1..][..n - 1] == line[..n][1..];
      PrefixIs(line[1..], n - 1);
    }
  }

  lemma {:induction false} BlankRunIs(s: string, n: nat)
    requires n <= |s| && (forall k | 0 <= k < n :: s[k] == ' ' || s[k] == '\t') && (n < |s| ==> s[n] != ' ' && s[n] != '\t')
    ensures BlankRun(s) == n
    decreases n
  {
    if n > 0 { BlankRunIs(s[1..], n - 1); }
  }

  /** The digits a line begins with: how many, and their value unless it is too large, which is
      noticed before it could overflow. */
  method LeadingSize(line: string) returns (n: nat, size: Option<nat>)
    ensures size.None? ==> HexValue(line[..HexPrefix(line)]) > MAX_BODY
    ensures size.Some? ==> n == HexPrefix(line) && size.value == HexValue(line[..n]) <= MAX_BODY
  {
    var sz: nat := 0;
    n := 0;
    while n < |line| && Hex(line[n])
      invariant n <= |line| && AllHex(line[..n]) && sz == HexValue(line[..n]) <= MAX_BODY
    {
      assert line[..n + 1][..n] == line[..n];
      sz := sz * 16 + DigitValue(line[n]);
      n := n + 1;
      if sz > MAX_BODY {
        TooLarge(line, n);
        return n, None;
      }
    }
    PrefixIs(line, n);
    size := Some(sz);
  }

  /** `size_line`. */
  method SizeLine(line: string) returns (size: Option<nat>)
    ensures size == SizeOf(line)
  {
    hide HexValue, HexPrefix, BlankRun;
    var i, sz := LeadingSize(line);
    if sz.None? || i == 0 { return None; }
    var j := i;
    while j < |line| && (line[j] == ' ' || line[j] == '\t')
      invariant i <= j <= |line| && forall k | i <= k < j :: line[k] == ' ' || line[k] == '\t'
    {
      j := j + 1;
    }
    BlankRunIs(line[i..], j - i);
    if j < |line| && line[j] != ';' { return None; }
    if '\r' in line[j..] || '\n' in line[j..] { return None; }
    return sz;
  }

  lemma {:induction false} PrefixReaches(line: string, i: nat)
    requires i <= |line| && AllHex(line[..i])
    ensures i <= HexPrefix(line)
    decreases i
  {
    if i > 0 {
      assert Hex(line[..i][0]);
      assert line[1..][..i - 1] == line[..i][1..];
      PrefixReaches(line[1..], i - 1);
    }
  }

  lemma TooLarge(line: string, i: nat)
    requires i <= |line| && AllHex(line[..i]) && HexValue(line[..i]) > MAX_BODY
    ensures HexValue(line[..HexPrefix(line)]) > MAX_BODY
  {
    var n := HexPrefix(line);
    PrefixReaches(line, i);
    assert line[..n][..i] == line[..i];
    ValueGrows(line[..n], i);
  }

  // ---------------------------------------------------------------- one byte

  datatype St = Size | Data | DataCrlf | Trailer | Done | Failed

  datatype Decoder = Decoder(st: St, remaining: nat, line: string)

  const START := Decoder(Size, 0, "")

  predicate Ended(d: Decoder) { d.st.Done? || d.st.Failed? }

  predicate CrLf(line: string) { |line| >= 2 && line[|line| - 2] == '\r' && line[|line| - 1] == '\n' }

  function SizeRead(d: Decoder, line: string): Decoder
    requires CrLf(line)
  {
    match SizeOf(line[..|line| - 2])
    case None => Decoder(Failed, d.remaining, "")
    case Some(n) => Decoder(if n == 0 then Trailer else Data, n, "")
  }

  function Step(d: Decoder, c: char): Decoder {
    var line := d.line + [c];
    match d.st
    case Size =>
      if |line| > MAX_SIZE_LINE then Decoder(Failed, d.remaining, line)
      else if CrLf(line) then SizeRead(d, line) else d.(line := line)
    case Data =>
      var left := if d.remaining > 0 then d.remaining - 1 else 0;
      Decoder(if left == 0 then DataCrlf else Data, left, d.line)
    case DataCrlf =>
      if |line| != 2 then d.(line := line)
      else if line == "\r\n" then Decoder(Size, d.remaining, "") else Decoder(Failed, d.remaining, line)
    case Trailer =>
      if |line| > MAX_HEADER then Decoder(Failed, d.remaining, line)
      else if CrLf(line) then Decoder(if |line| == 2 then Done else Trailer, d.remaining, "")
      else d.(line := line)
    case Done => d
    case Failed => d
  }

  /** The decoder after `text`. */
  function Run(d: Decoder, text: string): Decoder
    decreases |text|
  {
    if text == "" then d else Run(Step(d, text[0]), text[1..])
  }

  /** What it appends. */
  function Out(d: Decoder, text: string): string
    decreases |text|
  {
    if text == "" then "" else (if d.st.Data? then [text[0]] else "") + Out(Step(d, text[0]), text[1..])
  }

  /** How many bytes it takes: none past the terminating chunk. */
  function Taken(d: Decoder, text: string): (n: nat)
    ensures n <= |text|
    decreases |text|
  {
    if text == "" || Ended(d) then 0 else 1 + Taken(Step(d, text[0]), text[1..])
  }

  /** Any two pieces decode as the whole. */
  lemma {:induction false} Pieces(d: Decoder, a: string, b: string)
    ensures Run(d, a + b) == Run(Run(d, a), b)
    ensures Out(d, a + b) == Out(d, a) + Out(Run(d, a), b)
    ensures Taken(d, a + b) == Taken(d, a) + Taken(Run(d, a), b)
    decreases |a|
  {
    hide Step;
    if a == "" {
      assert a + b == b;
    } else {
      assert (a + b)[0] == a[0] && (a + b)[1..] == a[1..] + b;
      Pieces(Step(d, a[0]), a[1..], b);
      if Ended(d) { EndedStays(d, a[0]); EndedRun(d, a); NoneTaken(Run(d, a), b); }
    }
  }

  lemma EndedStays(d: Decoder, c: char)
    requires Ended(d)
    ensures Step(d, c) == d
  {}

  lemma {:induction false} EndedRun(d: Decoder, text: string)
    requires Ended(d)
    ensures Run(d, text) == d && Out(d, text) == "" && Taken(d, text) == 0
    decreases |text|
  {
    if text != "" { EndedRun(d, text[1..]); }
  }

  lemma NoneTaken(d: Decoder, text: string)
    requires Ended(d)
    ensures Taken(d, text) == 0
  {}

  // ---------------------------------------------------------------- runs over parts of a chunk

  /** Line bytes that do not end the line are kept. */
  lemma {:induction false} RunLine(d: Decoder, text: string)
    requires d.st.Size? || d.st.Trailer?
    requires |d.line| + |text| <= MAX_SIZE_LINE && '\n' !in text
    ensures Run(d, text) == d.(line := d.line + text) && Out(d, text) == "" && Taken(d, text) == |text|
    decreases |text|
  {
    if text == "" {
      assert d.line + text == d.line;
    } else {
      assert Step(d, text[0]) == d.(line := d.line + [text[0]]);
      RunLine(Step(d, text[0]), text[1..]);
      assert d.line + [text[0]] + text[1..] == d.line + text;
    }
  }

  lemma {:induction false} RunData(d: Decoder, text: string)
    requires d.st.Data? && d.remaining >= |text| > 0
    ensures Run(d, text) == Decoder(if d.remaining == |text| then DataCrlf else Data, d.remaining - |text|, d.line)
    ensures Out(d, text) == text && Taken(d, text) == |text|
    decreases |text|
  {
    assert text == [text[0]] + text[1..];
    if |text| > 1 { RunData(Step(d, text[0]), text[1..]); }
  }

  // ---------------------------------------------------------------- the decoder

  class ChunkDecoder {
    var st: St
    var remaining: nat
    var line: string
    var consumed: nat

    function State(): Decoder
      reads this
    {
      Decoder(st, remaining, line)
    }

    constructor ()
      ensures State() == START && consumed == 0
    {
      st, remaining, line, consumed := Size, 0, "", 0;
    }

    /** A byte of a size line, a chunk's CRLF or the trailer. */
    method TakeByte(c: char)
      requires st.Size? || st.DataCrlf? || st.Trailer?
      modifies this`st, this`remaining, this`line
      ensures State() == Step(old(State()), c)
    {
      line := line + [c];
      if st.Size? {
        if |line| > MAX_SIZE_LINE {
          st := Failed;
        } else if CrLf(line) {
          var size := SizeLine(line[..|line| - 2]);
          line := "";
          if size.None? {
            st := Failed;
          } else {
            remaining := size.value;
            st := if size.value == 0 then Trailer else Data;
          }
        }
      } else if st.DataCrlf? {
        if |line| == 2 {
          if line == "\r\n" {
            line, st := "", Size;
          } else {
            st := Failed;
          }
        }
      } else {
        if |line| > MAX_HEADER {
          st := Failed;
        } else if CrLf(line) {
          var blank := |line| == 2;
          line := "";
          if blank { st := Done; }
        }
      }
    }

    /** Appends what `input` decodes to; false on a malformed stream. */
    method Feed(input: string, out0: string) returns (ok: bool, out: string)
      requires st.Data? ==> remaining > 0
      modifies this
      ensures st.Data? ==> remaining > 0
      ensures State() == Run(old(State()), input) && out == out0 + Out(old(State()), input)
      ensures ok <==> !st.Failed?
      ensures consumed == old(consumed) + if ok then Taken(old(State()), input) else 0
    {
      hide Step, Run, Out, Taken;
      ghost var d := State();
      var i := 0;
      out := out0;
      assert input[0..] == input;
      while i < |input| && !st.Done? && !st.Failed?
        invariant i <= |input| && consumed == old(consumed) && (st.Data? ==> remaining > 0)
        invariant Run(d, input) == Run(State(), input[i..])
        invariant out + Out(State(), input[i..]) == out0 + Out(d, input)
        invariant Taken(d, input) == i + Taken(State(), input[i..])
      {
        ghost var was := State();
        if st.Data? {
          var take := if remaining < |input| - i then remaining else |input| - i;
          assert input[i..] == input[i..i + take] + input[i + take..];
          Pieces(was, input[i..i + take], input[i + take..]);
          RunData(was, input[i..i + take]);
          out := out + input[i..i + take];
          i := i + take;
          remaining := remaining - take;
          if remaining == 0 { st := DataCrlf; }
        } else {
          OneByte(was, input, i);
          TakeByte(input[i]);
          StepKeeps(was, input[i]);
          i := i + 1;
        }
      }
      if i < |input| { EndedRun(State(), input[i..]); } else { assert input[i..] == ""; NothingLeft(State()); }
      ok := !st.Failed?;
      if ok { consumed := consumed + i; }
    }
  }

  lemma NothingLeft(d: Decoder)
    ensures Run(d, "") == d && Out(d, "") == "" && Taken(d, "") == 0
  {}

  lemma OneByte(d: Decoder, input: string, i: nat)
    requires i < |input| && !d.st.Data? && !Ended(d)
    ensures Run(d, input[i..]) == Run(Step(d, input[i]), input[i + 1..])
    ensures Out(d, input[i..]) == Out(Step(d, input[i]), input[i + 1..])
    ensures Taken(d, input[i..]) == 1 + Taken(Step(d, input[i]), input[i + 1..])
  {
    hide Step;
    assert input[i..][1..] == input[i + 1..];
  }

  lemma StepKeeps(d: Decoder, c: char)
    requires !d.st.Data?
    ensures Step(d, c).st.Data? ==> Step(d, c).remaining > 0
  {}

  /** The bytes taken of the first `k` pieces, less the one in which decoding failed and those after. */
  function TakenBefore(parts: seq<string>, k: nat): nat
    requires k <= |parts|
  {
    if k == 0 then 0
    else if !Run(START, Join(parts[..k])).st.Failed? then Taken(START, Join(parts[..k]))
    else TakenBefore(parts, k - 1)
  }

  /** Fed in any pieces, the decoder ends as the automaton does on the whole; its count of bytes
      too, unless it failed, which leaves the count at what the pieces before took. */
  method DecodeParts(parts: seq<string>) returns (ok: bool, out: string, done: bool, consumed: nat)
    ensures ok <==> !Run(START, Join(parts)).st.Failed?
    ensures done <==> Run(START, Join(parts)).st.Done?
    ensures out == Out(START, Join(parts))
    ensures consumed == TakenBefore(parts, |parts|)
    ensures ok ==> consumed == Taken(START, Join(parts))
  {
    hide Step, Run, Out, Taken, Join;
    var dec := new ChunkDecoder();
    ok, out := true, "";
    NothingLeft(START);
    NothingYet(parts);
    for n := 0 to |parts|
      invariant (dec.st.Data? ==> dec.remaining > 0) && fresh(dec)
      invariant dec.State() == Run(START, Join(parts[..n])) && out == Out(START, Join(parts[..n])) && (ok <==> !dec.st.Failed?)
      invariant dec.consumed == TakenBefore(parts, n) && (ok ==> dec.consumed == Taken(START, Join(parts[..n])))
    {
      ghost var sofar := Join(parts[..n]);
      JoinNext(parts, n);
      Pieces(START, sofar, parts[n]);
      if dec.st.Failed? { EndedRun(dec.State(), parts[n]); }
      ok, out := dec.Feed(parts[n], out);
    }
    assert parts[..|parts|] == parts;
    done, consumed := dec.st.Done?, dec.consumed;
  }

  /** A decoder that has not ended took every byte. */
  lemma {:induction false} TakenAll(d: Decoder, text: string)
    requires !Ended(Run(d, text))
    ensures Taken(d, text) == |text|
    decreases |text|
  {
    hide Step;
    if text != "" {
      if Ended(d) { EndedRun(d, text); }
      TakenAll(Step(d, text[0]), text[1..]);
    }
  }

  /** What two cuts of one input count: whole, and in two pieces. */
  lemma CutCounts(a: string, b: string)
    ensures Join([a + b]) == a + b == Join([a, b])
    ensures var all := Run(START, a + b);
            && TakenBefore([a + b], 1) == (if all.st.Failed? then 0 else Taken(START, a + b))
            && TakenBefore([a, b], 2)
               == if !all.st.Failed? then Taken(START, a + b) else if Run(START, a).st.Failed? then 0 else |a|
  {
    hide Run, Taken, Step, Out;
    assert [a + b][..1] == [a + b] && [a, b][..2] == [a, b] && [a, b][..1] == [a];
    assert Join([a + b]) == a + b + Join([]) == a + b;
    assert [a, b][1..] == [b] && Join([b]) == b + Join([]) == b;
    assert Join([a]) == a + Join([]) == a;
    var d := Run(START, a);
    Pieces(START, a, b);
    if Ended(d) { EndedRun(d, b); } else { TakenAll(START, a); }
    assert TakenBefore([a, b], 1) == if d.st.Failed? then 0 else Taken(START, a);
  }

  /** The two counts differ exactly when decoding fails in the second piece and the first holds any byte. */
  lemma CountDiffers(a: string, b: string)
    ensures TakenBefore([a + b], 1) != TakenBefore([a, b], 2) <==>
            a != "" && !Run(START, a).st.Failed? && Run(START, a + b).st.Failed?
  {
    hide Run, Taken, TakenBefore;
    CutCounts(a, b);
  }

  /** A blank size line fails: whole, none of it is counted; cut inside its CRLF, the CR is. */
  lemma CountDependsOnCut()
    ensures Join(["\r\n"]) == "\r\n" == Join(["\r", "\n"]) && Run(START, "\r\n").st.Failed?
    ensures TakenBefore(["\r\n"], 1) == 0 && TakenBefore(["\r", "\n"], 2) == 1
  {
    hide Run, Taken, TakenBefore;
    assert "\r" + "\n" == "\r\n";
    BlankSize();
    CutCounts("\r", "\n");
  }

  lemma BlankSize()
    ensures Run(START, "\r") == Decoder(Size, 0, "\r") && Taken(START, "\r") == 1
    ensures Run(START, "\r\n").st.Failed?
  {
    hide Run, Taken;
    RunLine(START, "\r");
    assert "" + "\r" == "\r";
    Pieces(START, "\r", "\n");
    assert "\r" + "\n" == "\r\n";
    var d := Decoder(Size, 0, "\r");
    assert "\r\n"[..0] == "";
    assert Step(d, '\n').st.Failed?;
    OneByte(d, "\n", 0);
    assert "\n"[0..] == "\n" && "\n"[1..] == "";
    NothingLeft(Step(d, '\n'));
  }
}
