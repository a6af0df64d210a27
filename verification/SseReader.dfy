/** The incremental SSE reader (`SseFrameReader` in provider/src/sse.cpp): searched once however
    the stream is split, with an event's single data line left in place in the bytes fed.
 */
module SseReader {
  import opened Options
  import opened Parts
  import opened SseLines

  datatype Answer = Event | More | Fail

  // ---------------------------------------------------------------- one line of the bytes fed

  /** The reader once the line ending at `n` of `rest`, and its terminator, were read. */
  function AfterLine(r: Reader, rest: string, n: nat): Reader
    requires n < |rest|
  {
    EndLine(r, r.line + rest[..n]).(skipLf := rest[n] == '\r' && n + 1 == |rest|)
  }

  predicate LineAt(rest: string, n: nat) {
    n < |rest| && Eol(rest[n]) && forall k | 0 <= k < n :: !Eol(rest[k])
  }

  lemma LineBytes(r: Reader, rest: string, n: nat)
    requires !r.failed && !r.skipLf && LineAt(rest, n)
    ensures var f := EndLine(r, r.line + rest[..n]).(skipLf := rest[n] == '\r');
            && Run(r, rest) == Run(f, rest[n + 1..])
            && Events(r, rest) == (if r.line + rest[..n] == "" && r.data.Some? then [r.data.value] else []) + Events(f, rest[n + 1..])
  {
    hide Run, Events, EndLine;
    var d := if n == 0 then r else r.(line := r.line + rest[..n]);
    var f := EndLine(r, r.line + rest[..n]).(skipLf := rest[n] == '\r');
    RunText(r, rest[..n]);
    assert n == 0 ==> r.line + rest[..n] == r.line;
    EndsSame(r, d, r.line + rest[..n]);
    OneByte(d, rest[n]);
    assert rest == rest[..n] + ([rest[n]] + rest[n + 1..]);
    Pieces(r, rest[..n], [rest[n]] + rest[n + 1..]);
    Pieces(d, [rest[n]], rest[n + 1..]);
  }

  lemma EndsSame(r: Reader, d: Reader, line: string)
    requires d == r.(line := d.line)
    ensures EndLine(d, line) == EndLine(r, line)
  {}

  /** A CR LF pair is one terminator. */
  lemma PairTaken(f: Reader, more: string)
    requires !f.failed && f.skipLf && f.line == "" && more != ""
    ensures var rest := if more[0] == '\n' then more[1..] else more;
            Run(f, more) == Run(f.(skipLf := false), rest) && Events(f, more) == Events(f.(skipLf := false), rest)
  {
    SkipPair(f, more);
  }

  lemma LineTaken(r: Reader, rest: string, n: nat)
    requires !r.failed && !r.skipLf && LineAt(rest, n)
    ensures var g, m := AfterLine(r, rest, n), n + EolLength(rest[n..]);
            var first := if r.line + rest[..n] == "" && r.data.Some? then [r.data.value] else [];
            if g.failed then Run(r, rest).failed && Events(r, rest) == []
            else Run(r, rest) == Run(g, rest[m..]) && Events(r, rest) == first + Events(g, rest[m..])
  {
    hide Run, Events, EndLine, EolLength;
    var line := r.line + rest[..n];
    var f := EndLine(r, line).(skipLf := rest[n] == '\r');
    LineBytes(r, rest, n);
    EolFacts(rest, n);
    EndLineEmpties(r, line);
    if f.failed {
      FailedStays(f, rest[n + 1..]);
      FailsOnLine(r, line);
    } else if rest[n] == '\r' && n + 1 < |rest| {
      PairTaken(f, rest[n + 1..]);
      assert rest[n + 1..][1..] == rest[n + 2..];
    }
  }

  // ---------------------------------------------------------------- the reader

  class SseFrameReader {
    var input: string
    var at: nat
    var line: string       // an unfinished line carried to the next feed
    var data: string       // the event's data, when it cannot stay a view
    var view: string       // the event's single data line, in place in `input`
    var viewing: bool
    var have: bool
    var lineOwned: bool    // `line` holds the line being read, not a carried one
    var skipLf: bool
    var cr: bool           // `input` holds a CR
    var stopped: bool
    var failed: bool

    function Current(): Option<string>
      reads this`have, this`viewing, this`view, this`data
    {
      if !have then None else Some(if viewing then view else data)
    }

    /** The byte-wise reader these fields stand for. */
    function State(): Reader
      reads this`lineOwned, this`line, this`have, this`viewing, this`view, this`data, this`skipLf, this`failed
    {
      Reader(if lineOwned then "" else line, Current(), skipLf, failed)
    }

    ghost predicate Valid()
      reads this`at, this`input, this`cr, this`skipLf, this`lineOwned, this`line
    {
      at <= |input| && (cr <==> '\r' in input) && (skipLf ==> lineOwned || line == "")
    }

    ghost function Rest(): string
      reads this`at, this`input
      requires at <= |input|
    {
      input[at..]
    }

    constructor ()
      ensures Valid() && State() == START && Rest() == "" && !stopped
    {
      input, at, line, data, view := "", 0, "", "", "";
      viewing, have, lineOwned, skipLf, cr, stopped, failed := false, false, false, false, false, false, false;
    }

    /** The next bytes; those before were read to their end. */
    method Feed(bytes: string)
      requires Valid() && (Rest() == "" || stopped || failed)
      modifies this`input, this`at, this`cr
      ensures Valid() && Rest() == bytes && State() == old(State())
    {
      input, at := bytes, 0;
      cr := '\r' in bytes;
    }

    /** One data line more: the first stays in place if it can. */
    method AddDataLine(value: string, inPlace: bool) returns (ok: bool)
      modifies this`have, this`viewing, this`view, this`data
      ensures Current() == Some(AddData(old(Current()), value)) && (ok <==> |Current().value| < MAX_EVENT)
    {
      if !have {
        have, viewing := true, inPlace;
        if inPlace { view := value; } else { data := value; }
      } else {
        if viewing { data, viewing := view, false; }
        data := data + "\n" + value;
      }
      ok := (if viewing then |view| else |data|) < MAX_EVENT;
    }

    /** The first terminator from `at` on, or the end. */
    method FindEol() returns (k: nat)
      requires Valid()
      ensures at <= k <= |input| && (k < |input| ==> Eol(input[k])) && forall j | at <= j < k :: !Eol(input[j])
    {
      k := at;
      while k < |input| && input[k] != '\n'
        invariant at <= k <= |input| && forall j | at <= j < k :: input[j] != '\n'
      {
        k := k + 1;
      }
      if cr {
        var c := at;
        while c < k && input[c] != '\r'
          invariant at <= c <= k && forall j | at <= j < c :: input[j] != '\r'
        {
          c := c + 1;
        }
        k := c;
      }
    }

    /** Past the terminator at `k`; an LF still to come may be part of it. */
    method PassEol(k: nat)
      requires Valid() && !skipLf && at <= k < |input| && LineAt(Rest(), k - at) && (lineOwned || line == "" || !skipLf)
      modifies this`at, this`skipLf
      ensures old(at) < at <= |input|
      ensures var rest, n := old(Rest()), k - old(at);
              && Rest() == rest[n + EolLength(rest[n..])..] && (skipLf <==> rest[n] == '\r' && n + 1 == |rest|)
    {
      ghost var rest, n := Rest(), k - at;
      EolFacts(rest, n);
      assert input[k] == rest[n];
      at := k + 1;
      if input[k] == '\r' {
        if at < |input| {
          assert input[at] == rest[n + 1];
          if input[at] == '\n' { at := at + 1; }
        } else {
          skipLf := true;
        }
      }
    }

    /** A finished line, what was carried of it before `part`. */
    method UseLine(part: string) returns (event: Option<string>, ok: bool)
      requires !lineOwned && !failed
      modifies this`line, this`lineOwned, this`have, this`viewing, this`view, this`data
      ensures lineOwned || line == ""
      ensures var g := EndLine(old(State()), old(line) + part);
              (ok <==> !g.failed) && (ok ==> State() == g)
      ensures event == if old(line) + part == "" then old(Current()) else None
    {
      hide DataOf, AddData;
      event, ok := None, true;
      var text := part;
      assert line == "" ==> line + part == part;
      if line != "" {
        line, lineOwned := line + part, true;
        text := line;
      }
      if text == "" {
        if have {
          event, have := Current(), false;
        }
        return;
      }
      var value := DataOf(text);
      if value.Some? { ok := AddDataLine(value.value, !lineOwned); }
    }

    /** The line that ends at `k`: the event it dispatches, or false past the event cap. */
    method TakeLine(k: nat) returns (event: Option<string>, ok: bool)
      requires Valid() && !failed && !skipLf && !lineOwned && at <= k < |input| && LineAt(Rest(), k - at)
      modifies this`at, this`skipLf, this`line, this`lineOwned, this`have, this`viewing, this`view, this`data
      ensures Valid() && at > old(at)
      ensures var g := AfterLine(old(State()), old(Rest()), k - old(at));
              && (ok <==> !g.failed)
              && (ok ==> State() == g)
      ensures Rest() == old(Rest())[k - old(at) + EolLength(old(Rest())[k - old(at)..])..]
      ensures event == if old(line) + old(Rest())[..k - old(at)] == "" then old(Current()) else None
    {
      hide EolLength, EndLine;
      ghost var r, rest, n := State(), Rest(), k - at;
      var part := input[at..k];
      assert part == rest[..n];
      SkipApart(r, skipLf, line + part);
      PassEol(k);
      SkipApart(r, skipLf, line + part);
      event, ok := UseLine(part);
    }

    method Failing()
      modifies this`failed, this`line, this`data
      ensures failed && line == ""
    {
      failed, line, data := true, "", "";
    }

    /** A carried line is dropped once read, and an LF that pairs with the last CR is passed. */
    method Prepare()
      requires Valid() && !failed
      modifies this`line, this`lineOwned, this`skipLf, this`at
      ensures Valid() && !lineOwned && (skipLf ==> at == |input|) && at >= old(at)
      ensures Run(State(), Rest()) == old(Run(State(), Rest())) && Events(State(), Rest()) == old(Events(State(), Rest()))
    {
      hide Run, Events;
      if lineOwned { line, lineOwned := "", false; }
      if skipLf && at < |input| {
        PairTaken(State(), Rest());
        assert input[at..][1..] == input[at + 1..];
        if input[at] == '\n' { at := at + 1; }
        skipLf := false;
      }
    }

    /** The rest of the bytes into the carried line. */
    method Carry()
      requires Valid() && !failed && !skipLf && !lineOwned && forall j | at <= j < |input| :: !Eol(input[j])
      modifies this`line, this`at
      ensures Valid() && Rest() == ""
      ensures State() == old(Run(State(), Rest())) && old(Events(State(), Rest())) == []
    {
      hide Run, Events;
      ghost var rest := Rest();
      RunText(State(), rest);
      assert rest == "" ==> line + rest == line;
      line, at := line + input[at..], |input|;
    }

    /** One line, or what there is of one. */
    method ReadLine() returns (progress: Progress)
      requires Valid() && !failed
      modifies this`at, this`skipLf, this`line, this`lineOwned, this`have, this`viewing, this`view, this`data
      ensures Valid() && !failed
      ensures var r, rest := old(State()), old(Rest());
        match progress
        case Out => State() == Run(r, rest) && Rest() == "" && Events(r, rest) == [] && !lineOwned
        case Again => at > old(at) && Run(State(), Rest()) == Run(r, rest) && Events(State(), Rest()) == Events(r, rest)
        case Got(event) =>
          at > old(at) && Run(State(), Rest()) == Run(r, rest) && [event] + Events(State(), Rest()) == Events(r, rest)
        case Over => Run(r, rest).failed && Events(r, rest) == []
    {
      hide Run, Events, AfterLine, EolLength, LineAt, Eol;
      Prepare();
      if at >= |input| || skipLf {
        RunNone(State());
        assert Rest() == "";
        return Out;
      }
      var k := FindEol();
      if k == |input| {
        Carry();
        return Out;
      }
      progress := ReadWhole(k);
    }

    /** The whole line that ends at `k`. */
    method ReadWhole(k: nat) returns (progress: Progress)
      requires Valid() && !failed && !skipLf && !lineOwned && at <= k < |input|
      requires Eol(input[k]) && forall j | at <= j < k :: !Eol(input[j])
      modifies this`at, this`skipLf, this`line, this`lineOwned, this`have, this`viewing, this`view, this`data
      ensures Valid() && !failed && at > old(at) && !progress.Out?
      ensures progress.Again? ==> Run(State(), Rest()) == old(Run(State(), Rest())) && Events(State(), Rest()) == old(Events(State(), Rest()))
      ensures progress.Got? ==>
        Run(State(), Rest()) == old(Run(State(), Rest())) && [progress.event] + Events(State(), Rest()) == old(Events(State(), Rest()))
      ensures progress.Over? ==> old(Run(State(), Rest())).failed && old(Events(State(), Rest())) == []
    {
      hide Run, Events, AfterLine, EolLength, LineAt, Eol;
      LineThere(input, at, k);
      LineTaken(State(), Rest(), k - at);
      var ev, ok := TakeLine(k);
      assert [] + Events(State(), Rest()) == Events(State(), Rest());
      return if !ok then Over else if ev.Some? then Got(ev.value) else Again;
    }

    /** The next event, if the bytes fed hold one whole. */
    method Next() returns (answer: Answer, event: string)
      requires Valid()
      modifies this
      ensures Valid() && stopped == old(stopped)
      ensures old(failed) ==> answer == Fail && failed
      ensures !old(failed) && old(stopped) ==> answer == More && State() == old(State())
      ensures !old(failed) && !old(stopped) ==>
        match answer
        case Event =>
          && !failed && Run(State(), Rest()) == Run(old(State()), old(Rest())) && |Rest()| < |old(Rest())|
          && [event] + Events(State(), Rest()) == Events(old(State()), old(Rest()))
        case More =>
          && !failed && State() == Run(old(State()), old(Rest())) && Rest() == "" && |State().line| <= MAX_LINE
          && Events(old(State()), old(Rest())) == []
        case Fail =>
          && failed && Events(old(State()), old(Rest())) == []
          && (Run(old(State()), old(Rest())).failed || |Run(old(State()), old(Rest())).line| > MAX_LINE)
    {
      hide Run, Events;
      event := "";
      if failed { return Fail, event; }
      if stopped { return More, event; }
      ghost var r0, rest0 := State(), Rest();
      while true
        invariant Valid() && !failed && !stopped && old(at) <= at && input == old(input)
        invariant Run(State(), Rest()) == Run(r0, rest0) && Events(State(), Rest()) == Events(r0, rest0)
        decreases |input| - at
      {
        var p := ReadLine();
        if p.Out? { break; }
        if p.Over? {
          Failing();
          return Fail, event;
        }
        if p.Got? { return Event, p.event; }
      }
      if |line| > MAX_LINE {
        Failing();
        return Fail, event;
      }
      if viewing { data, viewing := view, false; }
      return More, event;
    }
  }

  /** What reading a line came to: no line whole, a line of no event, an event, or the event cap. */
  datatype Progress = Out | Again | Got(event: string) | Over

  lemma SkipApart(r: Reader, skip: bool, line: string)
    ensures EndLine(r.(skipLf := skip), line) == EndLine(r, line).(skipLf := skip)
  {}

  lemma RunNone(r: Reader)
    ensures Run(r, "") == r && Events(r, "") == []
  {}

  lemma LineThere(input: string, at: nat, k: nat)
    requires at <= k < |input| && Eol(input[k]) && forall j | at <= j < k :: !Eol(input[j])
    ensures LineAt(input[at..], k - at)
  {}

  // ---------------------------------------------------------------- a whole stream

  /** A cap trips by the end of the k-th arrival: an event is too long, or a line still unfinished. */
  predicate Trips(parts: seq<string>, k: nat)
    requires k <= |parts|
  {
    var r := Run(START, Join(parts[..k]));
    r.failed || |r.line| > MAX_LINE
  }

  /** All events of the bytes fed, after those before. */
  method Drain(reader: SseFrameReader, before: seq<string>) returns (ok: bool, events: seq<string>)
    requires reader.Valid() && !reader.failed && !reader.stopped
    modifies reader
    ensures reader.Valid() && !reader.stopped && (ok <==> !reader.failed)
    ensures events == before + old(Events(reader.State(), reader.Rest()))
    ensures ok ==> reader.State() == old(Run(reader.State(), reader.Rest())) && reader.Rest() == ""
    ensures var r := old(Run(reader.State(), reader.Rest())); ok <==> !r.failed && |r.line| <= MAX_LINE
  {
    hide Run, Events;
    events := before;
    ghost var r0, rest0 := reader.State(), reader.Rest();
    while true
      invariant reader.Valid() && !reader.failed && !reader.stopped
      invariant Run(reader.State(), reader.Rest()) == Run(r0, rest0)
      invariant events + Events(reader.State(), reader.Rest()) == before + Events(r0, rest0)
      decreases |reader.Rest()|
    {
      ghost var sofar, rest := events, Events(reader.State(), reader.Rest());
      var answer, event := reader.Next();
      if answer != Event { return answer == More, events; }
      assert sofar + rest == sofar + [event] + Events(reader.State(), reader.Rest());
      events := events + [event];
    }
  }

  /** However a stream is cut into arrivals, the events are those of its lines, until a cap trips. */
  method ReadParts(parts: seq<string>) returns (ok: bool, events: seq<string>)
    ensures ok ==> events == Read(None, Lines(Join(parts)))
    ensures ok <==> forall k | 0 <= k <= |parts| :: !Trips(parts, k)
  {
    hide Run, Events, Read, Lines, Join;
    var reader := new SseFrameReader();
    ok, events := true, [];
    assert Join(parts[..0]) == "" by { NothingYet(parts); }
    RunNone(START);
    for n := 0 to |parts|
      invariant fresh(reader) && reader.Valid() && !reader.failed && !reader.stopped && reader.Rest() == ""
      invariant reader.State() == Run(START, Join(parts[..n])) && events == Events(START, Join(parts[..n]))
      invariant forall k | 0 <= k <= n :: !Trips(parts, k)
    {
      reader.Feed(parts[n]);
      JoinNext(parts, n);
      Pieces(START, Join(parts[..n]), parts[n]);
      var fine;
      fine, events := Drain(reader, events);
      if !fine {
        assert Trips(parts, n + 1);
        return false, events;
      }
    }
    assert parts[..|parts|] == parts;
    EventsAreRead(START, Join(parts));
  }

  // ---------------------------------------------------------------- where a cut shows

  lemma OnePart(s: string)
    ensures Join([s]) == s && [s][..0] == [] && [s][..1] == [s]
  {
    assert Join([s]) == s + Join([]) == s;
  }

  /** A line this long fails when an arrival ends before its terminator, and does not when it comes
      with it: whether the cap on an unfinished line trips depends on the cut. */
  lemma LineCapDependsOnCut(line: string)
    requires Bare(line) && MAX_LINE < |line| < MAX_EVENT
    ensures Join([line, "\n"]) == line + "\n" == Join([line + "\n"])
    ensures Trips([line, "\n"], 1) && forall k | 0 <= k <= 1 :: !Trips([line + "\n"], k)
  {
    hide Run, Join;
    assert [line, "\n"][..1] == [line] && [line, "\n"][1..] == ["\n"];
    OnePart(line);
    OnePart("\n");
    OnePart(line + "\n");
    assert Join([line, "\n"]) == line + "\n" by { TwoParts(line, "\n"); }
    RunText(START, line);
    assert "" + line == line;
    RunNone(START);
    NothingYet([line + "\n"]);
    LineCapped(line);
  }

  lemma TwoParts(a: string, b: string)
    ensures Join([a, b]) == a + b
  {
    assert [a, b][1..] == [b];
    OnePart(b);
  }

  /** The same line with its terminator is read and forgotten. */
  lemma LineCapped(line: string)
    requires Bare(line) && line != "" && |line| < MAX_EVENT
    ensures var r := Run(START, line + "\n"); !r.failed && r.line == ""
  {
    hide Run, EndLine;
    var s := line + "\n";
    RunToEol(START, s, |line|);
    assert s[..|line| + 1] == s && s[..|line|] == line;
    ShortEvent(line);
  }

  lemma ShortEvent(line: string)
    requires |line| < MAX_EVENT
    ensures !EndLine(START, line).failed && EndLine(START, line).line == ""
  {}
}
