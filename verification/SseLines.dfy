/** Server-sent events (HTML Living Standard, section 9.2.6, `data` fields only): a plain reading
    of the stream as a list of lines, and a byte-at-a-time reading that agrees with it.
 */
module SseLines {

  import opened Options

  const MAX_LINE: nat := 0x10_0000
  const MAX_EVENT: nat := 0x40_0000

  // ---------------------------------------------------------------- the plain reading

  predicate Eol(c: char) { c == '\n' || c == '\r' }

  /** Where the first line ends. */
  function LineEnd(s: string): (n: nat)
    ensures n <= |s| && (n < |s| ==> Eol(s[n])) && forall k | 0 <= k < n :: !Eol(s[k])
  {
    if s == "" || Eol(s[0]) then 0 else 1 + LineEnd(s[1..])
  }

  /** How long the terminator at the front is: CR LF counts as one. */
  function EolLength(s: string): (n: nat)
    requires s != ""
    ensures 1 <= n <= 2 && n <= |s|
  {
    if s[0] == '\r' && |s| > 1 && s[1] == '\n' then 2 else 1
  }

  /** The finished lines of a stream. */
  function Lines(s: string): seq<string>
    decreases |s|
  {
    var n := LineEnd(s);
    if n == |s| then [] else [s[..n]] + Lines(s[n + EolLength(s[n..])..])
  }

  /** The value of a `data` field; the colon may be missing, and one space after it is dropped. */
  function DataOf(line: string): Option<string> {
    if |line| < 4 || line[..4] != "data" || (|line| > 4 && line[4] != ':') then None
    else
      var value := if |line| > 4 then line[5..] else "";
      Some(if value != "" && value[0] == ' ' then value[1..] else value)
  }

  function AddData(data: Option<string>, value: string): string {
    if data.None? then value else data.value + "\n" + value
  }

  /** The events of a list of lines, `data` being the data of one begun. */
  function Read(data: Option<string>, lines: seq<string>): seq<string>
    decreases |lines|
  {
    if lines == [] then []
    else if lines[0] == "" then (if data.Some? then [data.value] else []) + Read(None, lines[1..])
    else if DataOf(lines[0]).Some? then Read(Some(AddData(data, DataOf(lines[0]).value)), lines[1..])
    else Read(data, lines[1..])
  }

  // ---------------------------------------------------------------- an event is its data lines, joined

  function Values(lines: seq<string>): seq<string> {
    if lines == [] then []
    else (if DataOf(lines[0]).Some? then [DataOf(lines[0]).value] else []) + Values(lines[1..])
  }

  function JoinLf(values: seq<string>): string {
    if values == [] then "" else if |values| == 1 then values[0] else values[0] + "\n" + JoinLf(values[1..])
  }

  lemma JoinFirst(a: string, b: string, rest: seq<string>)
    ensures JoinLf([a, b] + rest) == JoinLf([a + "\n" + b] + rest)
  {
    var s, t := [a, b] + rest, [a + "\n" + b] + rest;
    assert s[1..] == [b] + rest && t[1..] == rest;
    if rest == [] {
      assert JoinLf(s) == a + "\n" + JoinLf([b]);
      assert t == [a + "\n" + b];
    } else {
      assert ([b] + rest)[1..] == rest;
      assert JoinLf(s) == a + "\n" + (b + "\n" + JoinLf(rest));
      assert a + "\n" + (b + "\n" + JoinLf(rest)) == a + "\n" + b + "\n" + JoinLf(rest);
    }
  }

  /** Lines up to a blank one make the event of their values, if they hold any. */
  lemma {:induction false} ReadBlock(data: Option<string>, block: seq<string>, rest: seq<string>)
    requires forall l <- block :: l != ""
    ensures var values := (if data.Some? then [data.value] else []) + Values(block);
            Read(data, block + [""] + rest) == (if values == [] then [] else [JoinLf(values)]) + Read(None, rest)
    decreases |block|
  {
    hide DataOf;
    var all := block + [""] + rest;
    var before := if data.Some? then [data.value] else [];
    if block == [] {
      assert all[0] == "" && all[1..] == rest;
      assert before + Values([]) == before;
    } else {
      assert all[0] == block[0] && all[1..] == block[1..] + [""] + rest && block[0] in block;
      assert forall l <- block[1..] :: l in block;
      var v := DataOf(block[0]);
      if v.Some? {
        ReadBlock(Some(AddData(data, v.value)), block[1..], rest);
        assert before + Values(block) == before + [v.value] + Values(block[1..]);
        if data.Some? {
          JoinFirst(data.value, v.value, Values(block[1..]));
          assert [data.value] + [v.value] + Values(block[1..]) == [data.value, v.value] + Values(block[1..]);
        } else {
          assert before + Values(block) == [v.value] + Values(block[1..]);
        }
      } else {
        ReadBlock(data, block[1..], rest);
        assert Values(block) == Values(block[1..]);
      }
    }
  }

  // ---------------------------------------------------------------- a stream written is the stream read

  /** One event: a `data` line for each of its lines, then a blank line. */
  function Written(values: seq<string>): seq<string> {
    if values == [] then [] else ["data: " + values[0]] + Written(values[1..])
  }

  function AllWritten(events: seq<seq<string>>): seq<string> {
    if events == [] then [] else Written(events[0]) + [""] + AllWritten(events[1..])
  }

  lemma DataLine(v: string)
    ensures DataOf("data: " + v) == Some(v) && "data: " + v != ""
  {
    var line := "data: " + v;
    assert line[..4] == "data" && line[4] == ':' && line[5..] == " " + v && (" " + v)[1..] == v;
  }

  lemma {:induction false} WrittenValues(values: seq<string>)
    ensures Values(Written(values)) == values && forall l <- Written(values) :: l != ""
    decreases |values|
  {
    hide DataOf;
    if values != [] {
      WrittenValues(values[1..]);
      DataLine(values[0]);
      assert Written(values)[1..] == Written(values[1..]);
    }
  }

  function Joined(events: seq<seq<string>>): seq<string> {
    if events == [] then [] else [JoinLf(events[0])] + Joined(events[1..])
  }

  /** Events written a `data` line for each line of theirs read as those lines, joined. */
  lemma {:induction false} WrittenReads(events: seq<seq<string>>)
    requires forall e <- events :: e != []
    ensures Read(None, AllWritten(events)) == Joined(events)
    decreases |events|
  {
    hide DataOf, Written, Values, JoinLf;
    if events != [] {
      assert events[0] in events && forall e <- events[1..] :: e in events;
      WrittenReads(events[1..]);
      WrittenValues(events[0]);
      ReadBlock(None, Written(events[0]), AllWritten(events[1..]));
      assert [] + Values(Written(events[0])) == events[0];
    }
  }

  // ---------------------------------------------------------------- one byte at a time

  /** `skipLf`: a CR ended the last line, so an LF next is its pair. */
  datatype Reader = Reader(line: string, data: Option<string>, skipLf: bool, failed: bool)

  const START := Reader("", None, false, false)

  /** A finished line: the event it dispatches, if any. */
  function EndLine(r: Reader, line: string): Reader {
    var next := r.(line := "");
    if line == "" then next.(data := None)
    else if DataOf(line).None? then next
    else
      var data := AddData(r.data, DataOf(line).value);
      if |data| >= MAX_EVENT then next.(data := Some(data), failed := true) else next.(data := Some(data))
  }

  function Step(r: Reader, c: char): Reader {
    if r.failed then r
    else if r.skipLf && c == '\n' then r.(skipLf := false)
    else if Eol(c) then EndLine(r, r.line).(skipLf := c == '\r')
    else r.(line := r.line + [c], skipLf := false)
  }

  /** The event a byte completes. */
  function Emits(r: Reader, c: char): seq<string> {
    if !r.failed && Eol(c) && !(r.skipLf && c == '\n') && r.line == "" && r.data.Some? then [r.data.value] else []
  }

  function Run(r: Reader, s: string): Reader
    decreases |s|
  {
    if s == "" then r else Run(Step(r, s[0]), s[1..])
  }

  function Events(r: Reader, s: string): seq<string>
    decreases |s|
  {
    if s == "" then [] else Emits(r, s[0]) + Events(Step(r, s[0]), s[1..])
  }

  /** Any two pieces read as the whole, a cut between CR and LF included. */
  lemma {:induction false} Pieces(r: Reader, a: string, b: string)
    ensures Run(r, a + b) == Run(Run(r, a), b)
    ensures Events(r, a + b) == Events(r, a) + Events(Run(r, a), b)
    decreases |a|
  {
    hide Step, Emits;
    if a == "" {
      assert a + b == b;
    } else {
      assert (a + b)[0] == a[0] && (a + b)[1..] == a[1..] + b;
      Pieces(Step(r, a[0]), a[1..], b);
    }
  }

  lemma {:induction false} FailedStays(r: Reader, s: string)
    requires r.failed
    ensures Run(r, s) == r && Events(r, s) == []
    decreases |s|
  {
    if s != "" { FailedStays(r, s[1..]); }
  }

  // ---------------------------------------------------------------- the two readings agree

  /** Bytes of a line, not its end. */
  lemma {:induction false} RunText(r: Reader, s: string)
    requires !r.failed && forall k | 0 <= k < |s| :: !Eol(s[k])
    ensures Run(r, s) == (if s == "" then r else r.(line := r.line + s, skipLf := false)) && Events(r, s) == []
    decreases |s|
  {
    if s != "" {
      RunText(Step(r, s[0]), s[1..]);
      assert r.line + [s[0]] + s[1..] == r.line + s;
    }
  }

  lemma EolFacts(s: string, n: nat)
    requires n < |s|
    ensures EolLength(s[n..]) == if s[n] == '\r' && n + 1 < |s| && s[n + 1] == '\n' then 2 else 1
  {}

  /** A line and its terminator, `k` bytes in all. */
  lemma RunLine(r: Reader, s: string, n: nat, k: nat)
    requires !r.failed && r.line == "" && !r.skipLf && n == LineEnd(s) < |s| && k == n + EolLength(s[n..])
    ensures Events(r, s[..k]) == (if n == 0 && r.data.Some? then [r.data.value] else [])
    ensures var e := EndLine(r, s[..n]);
            Run(r, s[..k]) == e.(skipLf := s[n] == '\r' && (e.failed || k == n + 1))
  {
    hide EndLine, Step, Emits, Run, Events, EolLength;
    EolFacts(s, n);
    RunToEol(r, s, n);
    if k == n + 2 {
      var f := EndLine(r, s[..n]).(skipLf := true);
      Pieces(r, s[..n + 1], [s[n + 1]]);
      OneByte(f, s[n + 1]);
      LfPairs(f);
      assert s[..n + 1] + [s[n + 1]] == s[..n + 2];
    }
  }

  lemma LfPairs(f: Reader)
    requires f.skipLf
    ensures Step(f, '\n') == (if f.failed then f else f.(skipLf := false)) && Emits(f, '\n') == []
  {
    hide EndLine;
  }

  /** A line and the first byte of its terminator. */
  lemma RunToEol(r: Reader, s: string, n: nat)
    requires !r.failed && r.line == "" && !r.skipLf && n < |s| && Eol(s[n]) && forall k | 0 <= k < n :: !Eol(s[k])
    ensures Run(r, s[..n + 1]) == EndLine(r, s[..n]).(skipLf := s[n] == '\r')
    ensures Events(r, s[..n + 1]) == if n == 0 && r.data.Some? then [r.data.value] else []
  {
    hide EndLine, Run, Events;
    var d := if n == 0 then r else r.(line := s[..n]);
    RunText(r, s[..n]);
    assert "" + s[..n] == s[..n];
    EndLineForgets(r, s[..n]);
    Pieces(r, s[..n], [s[n]]);
    OneByte(d, s[n]);
    assert s[..n] + [s[n]] == s[..n + 1];
  }

  lemma EndLineForgets(r: Reader, line: string)
    requires r.line == ""
    ensures EndLine(r.(line := line), line) == EndLine(r, line)
  {}

  lemma OneByte(r: Reader, c: char)
    ensures Run(r, [c]) == Step(r, c) && Events(r, [c]) == Emits(r, c)
  {
    hide Step, Emits;
    assert [c][1..] == "";
  }

  /** An LF right after a CR the last bytes ended with changes nothing but that. */
  lemma SkipPair(r: Reader, s: string)
    requires !r.failed && r.skipLf && r.line == ""
    ensures s != "" && s[0] == '\n' ==> Run(r, s) == Run(r.(skipLf := false), s[1..]) && Events(r, s) == Events(r.(skipLf := false), s[1..])
    ensures s != "" && s[0] != '\n' ==> Run(r, s) == Run(r.(skipLf := false), s) && Events(r, s) == Events(r.(skipLf := false), s)
  {}

  /** Unless the event cap trips, the events are those of the plain reading. */
  lemma {:induction false} EventsAreRead(r: Reader, s: string)
    requires r.line == "" && !r.skipLf && !Run(r, s).failed
    ensures Events(r, s) == Read(r.data, Lines(s))
    decreases |s|
  {
    hide Step, Emits, Run, Events, EndLine, Read, EolLength;
    if r.failed {
      FailedStays(r, s);
      return;
    }
    var n := LineEnd(s);
    if n == |s| {
      RunText(r, s);
      ReadNone(r.data);
    } else {
      var k := n + EolLength(s[n..]);
      var line, rest, t := s[..n], s[k..], Run(r, s[..k]);
      assert s == s[..k] + rest;
      Pieces(r, s[..k], rest);
      RunLine(r, s, n, k);
      EolFacts(s, n);
      if t.failed { FailedStays(t, rest); return; }
      EndLineEmpties(r, line);
      SkipNone(t, rest, s, k);
      EventsAreRead(t.(skipLf := false), rest);
      ReadOne(r, line, Lines(rest));
      assert Lines(s) == [line] + Lines(rest);
    }
  }

  /** Even past the event cap, the events are the first of the plain reading's. */
  lemma {:induction false} EventsBegin(r: Reader, s: string)
    requires r.line == "" && !r.skipLf
    ensures Events(r, s) <= Read(r.data, Lines(s))
    decreases |s|
  {
    hide Step, Emits, Run, Events, EndLine, Read, EolLength;
    if r.failed {
      FailedStays(r, s);
      return;
    }
    var n := LineEnd(s);
    if n == |s| {
      RunText(r, s);
    } else {
      var k := n + EolLength(s[n..]);
      var line, rest, t := s[..n], s[k..], Run(r, s[..k]);
      assert s == s[..k] + rest;
      Pieces(r, s[..k], rest);
      RunLine(r, s, n, k);
      EolFacts(s, n);
      if t.failed {
        FailedStays(t, rest);
        FailsOnLine(r, line);
        return;
      }
      EndLineEmpties(r, line);
      SkipNone(t, rest, s, k);
      EventsBegin(t.(skipLf := false), rest);
      ReadOne(r, line, Lines(rest));
      assert Lines(s) == [line] + Lines(rest);
    }
  }

  lemma FailsOnLine(r: Reader, line: string)
    requires !r.failed && EndLine(r, line).failed
    ensures line != ""
  {}

  lemma ReadNone(data: Option<string>)
    ensures Read(data, []) == []
  {}

  lemma EndLineEmpties(r: Reader, line: string)
    ensures EndLine(r, line).line == ""
  {}

  /** The first line of a list, as the byte-wise reader ends it. */
  lemma ReadOne(r: Reader, line: string, rest: seq<string>)
    requires !r.failed && !EndLine(r, line).failed
    ensures Read(r.data, [line] + rest)
            == (if line == "" && r.data.Some? then [r.data.value] else []) + Read(EndLine(r, line).data, rest)
  {
    hide DataOf;
    assert ([line] + rest)[1..] == rest;
  }

  lemma SkipNone(t: Reader, rest: string, s: string, k: nat)
    requires !t.failed && t.line == "" && 0 < k <= |s| && rest == s[k..]
    requires t.skipLf ==> s[k - 1] == '\r' && (k < |s| ==> s[k] != '\n')
    ensures Run(t, rest) == (if rest == "" then t else Run(t.(skipLf := false), rest))
    ensures Events(t, rest) == Events(t.(skipLf := false), rest)
    ensures Run(t.(skipLf := false), rest).failed == Run(t, rest).failed
  {
    hide Step, Emits;
    if rest != "" && t.skipLf { SkipPair(t, rest); }
  }

  // ---------------------------------------------------------------- spellings of one stream

  datatype Ending = Lf | Cr | CrLf

  function EndingText(e: Ending): string {
    match e
    case Lf => "\n"
    case Cr => "\r"
    case CrLf => "\r\n"
  }

  /** A list of lines written out, each with its terminator. */
  function Spell(lines: seq<string>, ends: seq<Ending>): string
    requires |lines| == |ends|
    decreases |lines|
  {
    if lines == [] then "" else lines[0] + EndingText(ends[0]) + Spell(lines[1..], ends[1..])
  }

  /** No blank line's LF follows a CR it would be read as one with. */
  predicate Unambiguous(lines: seq<string>, ends: seq<Ending>)
    requires |lines| == |ends|
    decreases |lines|
  {
    |lines| <= 1 || (!(ends[0].Cr? && lines[1] == "" && ends[1].Lf?) && Unambiguous(lines[1..], ends[1..]))
  }

  predicate Bare(line: string) { forall k | 0 <= k < |line| :: !Eol(line[k]) }

  lemma LineEndIs(line: string, rest: string)
    requires Bare(line) && rest != "" && Eol(rest[0])
    ensures LineEnd(line + rest) == |line| && (line + rest)[..|line|] == line && (line + rest)[|line|..] == rest
  {
    var s, n := line + rest, LineEnd(line + rest);
    assert s[|line|] == rest[0];
    assert forall k | 0 <= k < |line| :: s[k] == line[k];
  }

  /** The first line of a stream, and what is read after it. */
  lemma LinesFirst(line: string, rest: string)
    requires Bare(line) && rest != "" && Eol(rest[0])
    ensures Lines(line + rest) == [line] + Lines(rest[EolLength(rest)..])
  {
    var s := line + rest;
    LineEndIs(line, rest);
    assert s[|line| + EolLength(rest)..] == rest[EolLength(rest)..];
  }

  lemma SpellStarts(lines: seq<string>, ends: seq<Ending>)
    requires |lines| == |ends| && forall l <- lines :: Bare(l)
    ensures var s := Spell(lines, ends);
            s != "" && s[0] == '\n' <==> lines != [] && lines[0] == "" && ends[0].Lf?
  {
    if lines != [] && lines[0] != "" { assert Bare(lines[0]) && !Eol(lines[0][0]); }
  }

  /** Written out and read back: the same lines exactly when no CR and LF fall together. */
  lemma {:induction false} SpelledReadsBack(lines: seq<string>, ends: seq<Ending>)
    requires |lines| == |ends| && forall l <- lines :: Bare(l)
    ensures |Lines(Spell(lines, ends))| <= |lines|
    ensures Lines(Spell(lines, ends)) == lines <==> Unambiguous(lines, ends)
    decreases |lines|
  {
    hide Lines, Bare;
    if lines == [] {
      assert Lines("") == [] by { NoLines(); }
      return;
    }
    var more := Spell(lines[1..], ends[1..]);
    var rest := EndingText(ends[0]) + more;
    assert Spell(lines, ends) == lines[0] + rest;
    assert lines[0] in lines && forall l <- lines[1..] :: l in lines;
    LinesFirst(lines[0], rest);
    SpelledReadsBack(lines[1..], ends[1..]);
    SpellStarts(lines[1..], ends[1..]);
    if ends[0].Cr? && more != "" && more[0] == '\n' {
      assert rest[2..] == Spell(lines[2..], ends[2..]) by { Merged(lines, ends); }
      assert forall l <- lines[2..] :: l in lines;
      SpelledReadsBack(lines[2..], ends[2..]);
    } else {
      assert rest[EolLength(rest)..] == more;
      assert lines == [lines[0]] + lines[1..];
    }
  }

  lemma Merged(lines: seq<string>, ends: seq<Ending>)
    requires |lines| == |ends| >= 2 && ends[0].Cr? && lines[1] == "" && ends[1].Lf?
    ensures (EndingText(ends[0]) + Spell(lines[1..], ends[1..]))[2..] == Spell(lines[2..], ends[2..])
  {
    assert lines[1..][1..] == lines[2..] && ends[1..][1..] == ends[2..];
  }

  lemma NoLines()
    ensures Lines("") == []
  {}

  /** All LF, all CR or all CR LF: one stream. */
  lemma {:induction false} OneEnding(lines: seq<string>, ends: seq<Ending>)
    requires |lines| == |ends| && forall i, j | 0 <= i < |ends| && 0 <= j < |ends| :: ends[i] == ends[j]
    ensures Unambiguous(lines, ends)
    decreases |lines|
  {
    if |lines| > 1 { OneEnding(lines[1..], ends[1..]); }
  }

  /** Whatever terminators a stream's lines are written with, its events are the same. */
  lemma SpellingsAgree(lines: seq<string>, a: seq<Ending>, b: seq<Ending>)
    requires |lines| == |a| == |b| && (forall l <- lines :: Bare(l)) && Unambiguous(lines, a) && Unambiguous(lines, b)
    requires !Run(START, Spell(lines, a)).failed && !Run(START, Spell(lines, b)).failed
    ensures Events(START, Spell(lines, a)) == Events(START, Spell(lines, b)) == Read(None, lines)
  {
    hide Run, Events, Read, Lines, Bare, Unambiguous;
    SpelledReadsBack(lines, a);
    SpelledReadsBack(lines, b);
    EventsAreRead(START, Spell(lines, a));
    EventsAreRead(START, Spell(lines, b));
  }
}
