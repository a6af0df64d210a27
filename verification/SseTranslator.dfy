/** The translator object (`AnthropicToOpenAiSse` in provider/src/sse.cpp): bytes of the venue's
    stream in, in any pieces, chunks for the client out.
 */
module SseTranslator {
  import opened Options
  import opened Parts
  import opened Translator
  import opened TranslatorOrder
  import SseLines
  import opened SseReader

  // ---------------------------------------------------------------- runs in pieces

  function Parsed(parse: string -> Event, data: seq<string>): (r: seq<Event>)
    ensures |r| == |data|
  {
    seq(|data|, i requires 0 <= i < |data| => parse(data[i]))
  }

  lemma ParsedSum(parse: string -> Event, a: seq<string>, b: seq<string>)
    ensures Parsed(parse, a + b) == Parsed(parse, a) + Parsed(parse, b)
  {}

  lemma ParsedFirst(parse: string -> Event, data: string, more: seq<string>)
    ensures Parsed(parse, [data] + more) == [parse(data)] + Parsed(parse, more)
  {}

  /** Block indices with a call, from the vector that holds -1 for none. */
  function OrdsOf(v: seq<int>): map<nat, nat> { map i: nat | i < |v| && v[i] >= 0 :: v[i] }

  // ---------------------------------------------------------------- the object

  class AnthropicToOpenAiSse {
    const parse: string -> Event     // the JSON parser and what is read off its value
    const usageAsked: bool
    const frames: SseFrameReader
    var failed: bool
    var blockOrd: seq<int>
    var next: nat
    var toolOpen: bool
    var finish: Option<string>
    var role: bool
    var finishSent: bool
    var done: bool
    var usageSent: bool

    function Now(): State
      reads this
    {
      State(usageAsked, role, finish, finishSent, done, failed, toolOpen, OrdsOf(blockOrd), next)
    }

    ghost predicate Valid()
      reads this, frames
    {
      frames.Valid() && (usageSent <==> usageAsked && done) && |blockOrd| <= MAX_BLOCKS
    }

    constructor (parse: string -> Event, usageAsked: bool)
      ensures Valid() && fresh(frames) && Now() == Start(usageAsked) && this.parse == parse && this.usageAsked == usageAsked
      ensures frames.State() == SseLines.START && frames.Rest() == "" && !frames.stopped
    {
      this.parse, this.usageAsked := parse, usageAsked;
      var f := new SseFrameReader();
      frames := f;
      failed, blockOrd, next, toolOpen, finish := false, [], 0, false, None;
      role, finishSent, done, usageSent := false, false, false, false;
    }

    /** The role, unless it has gone. */
    method EmitRole(out0: seq<Chunk>) returns (out: seq<Chunk>)
      modifies this`role
      ensures role && out == out0 + (if old(role) then [] else [Role])
    {
      out := out0;
      if !role { out, role := out + [Role], true; }
    }

    /** The finish chunk, unless it has gone. */
    method EmitFinish(out0: seq<Chunk>) returns (out: seq<Chunk>)
      modifies this`finishSent
      ensures finishSent && out == out0 + (if old(finishSent) then [] else [Finish(FinishNow(old(Now())))])
    {
      out := out0;
      if !finishSent {
        out := out + [Finish(if finish.Some? then finish.value else if next > 0 then "tool_calls" else "stop")];
        finishSent := true;
      }
    }

    /** The usage chunk, if asked for, and the end. */
    method EmitDone(out0: seq<Chunk>) returns (out: seq<Chunk>)
      requires !done && !usageSent
      modifies this`done, this`usageSent
      ensures done && usageSent == usageAsked && out == out0 + (if usageAsked then [Usage] else []) + [Done]
    {
      out := out0;
      if usageAsked && !usageSent { out, usageSent := out + [Usage], true; }
      out, done := out + [Done], true;
    }

    method Close(out0: seq<Chunk>) returns (out: seq<Chunk>)
      requires !done && !usageSent
      modifies this`done, this`usageSent, this`finishSent
      ensures done && finishSent && usageSent == usageAsked && out == out0 + Closing(old(Now()))
    {
      out := EmitFinish(out0);
      out := EmitDone(out);
    }

    /** Which call the arguments at this block index belong to. */
    method OrdinalFor(index: int) returns (ord: int)
      requires |blockOrd| <= MAX_BLOCKS
      ensures ord >= 0 <==> index >= 0 && index in OrdsOf(blockOrd)
      ensures ord >= 0 ==> ord == OrdsOf(blockOrd)[index]
    {
      if index < 0 || index >= MAX_BLOCKS { return -1; }
      return if index < |blockOrd| then blockOrd[index] else -1;
    }

    /** A call opened at this block index, the vector grown to hold it. */
    method OpenCall(index: nat)
      requires index < MAX_BLOCKS && |blockOrd| <= MAX_BLOCKS
      modifies this`blockOrd, this`next, this`toolOpen
      ensures |blockOrd| <= MAX_BLOCKS && OrdsOf(blockOrd) == OrdsOf(old(blockOrd))[index := old(next)]
      ensures next == old(next) + 1 && toolOpen
    {
      if index >= |blockOrd| {
        ghost var was := blockOrd;
        blockOrd := blockOrd + seq(index + 1 - |blockOrd|, _ => -1);
        assert OrdsOf(blockOrd) == OrdsOf(was);
      }
      blockOrd := blockOrd[index := next];
      next, toolOpen := next + 1, true;
    }

    method OnStart(named: Option<(string, string)>, out0: seq<Chunk>) returns (out: seq<Chunk>)
      requires !failed && !done
      modifies this`failed, this`role
      ensures Now() == Next(old(Now()), MessageStart(named)) && out == out0 + Says(old(Now()), MessageStart(named))
    {
      hide OrdsOf;
      out := out0;
      if named.Some? && TooLong(named.value.0, named.value.1) { failed := true; } else { out := EmitRole(out); }
    }

    method OnText(text: string, out0: seq<Chunk>) returns (out: seq<Chunk>)
      requires !failed && !done
      modifies this`role
      ensures Now() == Next(old(Now()), TextDelta(text)) && out == out0 + Says(old(Now()), TextDelta(text))
    {
      hide OrdsOf, Sanitized;
      out := EmitRole(out0);
      out := out + [Content(Sanitized(text))];
    }

    method OnArgs(index: int, json: string, out0: seq<Chunk>) returns (out: seq<Chunk>)
      requires !failed && !done && |blockOrd| <= MAX_BLOCKS
      ensures out == out0 + Says(Now(), ArgsDelta(index, json))
    {
      hide OrdsOf, Sanitized;
      out := out0;
      var ord := OrdinalFor(index);
      if ord >= 0 && json != "" { out := out + [ToolArgs(ord, Sanitized(json))]; }
    }

    method OnMessageDelta(stop: Option<string>, out0: seq<Chunk>) returns (out: seq<Chunk>)
      requires !failed && !done
      modifies this`failed, this`finish, this`toolOpen, this`finishSent
      ensures Now() == Next(old(Now()), MessageDelta(stop)) && out == out0 + Says(old(Now()), MessageDelta(stop))
    {
      hide OrdsOf;
      out := out0;
      if stop.Some? {
        if stop.value == "" {
          failed := true;
          return;
        }
        finish, toolOpen := stop, false;
      }
      if finish.Some? { out := EmitFinish(out); }
    }

    method OnTool(index: int, id: string, name: string, out0: seq<Chunk>) returns (out: seq<Chunk>)
      requires !failed && !done && |blockOrd| <= MAX_BLOCKS
      modifies this`role, this`blockOrd, this`next, this`toolOpen
      ensures |blockOrd| <= MAX_BLOCKS
      ensures var e := ToolStart(index, id, name); Now() == Next(old(Now()), e) && out == out0 + Says(old(Now()), e)
    {
      hide OrdsOf, Sanitized;
      out := out0;
      if Usable(next, index, name) {
        out := EmitRole(out);
        out := out + [ToolOpen(next, Sanitized(id), Sanitized(name))];
        OpenCall(index);
      }
    }

    /** The message's own end, or a foreign terminator no call is open under. */
    method OnEnd(e: Event, out0: seq<Chunk>) returns (out: seq<Chunk>)
      requires !failed && !done && !usageSent && (e.MessageStop? || e.DoneMark?)
      modifies this`toolOpen, this`done, this`usageSent, this`finishSent
      ensures (usageSent <==> usageAsked && done) && Now() == Next(old(Now()), e) && out == out0 + Says(old(Now()), e)
    {
      hide OrdsOf;
      out := out0;
      if e.MessageStop? { toolOpen := false; }
      if !toolOpen { out := Close(out); }
    }

    method Dispatch(e: Event, out0: seq<Chunk>) returns (out: seq<Chunk>)
      requires Valid() && !failed && !done
      modifies this
      ensures Valid() && Now() == Next(old(Now()), e) && out == out0 + Says(old(Now()), e)
    {
      hide Says, OrdsOf, Closing;
      out := out0;
      match e {
        case MessageStart(named) => out := OnStart(named, out);
        case TextDelta(text) => out := OnText(text, out);
        case ArgsDelta(index, json) => out := OnArgs(index, json, out);
        case MessageDelta(stop) => out := OnMessageDelta(stop, out);
        case ToolStart(index, id, name) => out := OnTool(index, id, name, out);
        case MessageStop => out := OnEnd(e, out);
        case DoneMark => out := OnEnd(e, out);
        case ErrorEvent => NoSays(Now(), e); failed := true;
        case Garbled => NoSays(Now(), e);
        case OtherEvent => NoSays(Now(), e);
      }
    }

    /** The events the bytes fed still hold. */
    ghost function Due(): seq<Event>
      reads this, frames
      requires frames.at <= |frames.input|
    {
      Parsed(parse, SseLines.Events(frames.State(), frames.Rest()))
    }

    ghost predicate Reading()
      reads this, frames
    {
      Valid() && !failed && !done && !frames.failed && !frames.stopped
    }

    /** The next event of the bytes fed, parsed; past a cap the stream has failed. */
    method NextEvent() returns (e: Option<Event>)
      requires Reading()
      modifies frames, this`failed
      ensures Valid()
      ensures e.Some? ==>
        && Reading() && Now() == old(Now()) && |frames.Rest()| < |old(frames.Rest())| && [e.value] + Due() == old(Due())
        && SseLines.Run(frames.State(), frames.Rest()) == SseLines.Run(old(frames.State()), old(frames.Rest()))
      ensures e.None? ==>
        var r := SseLines.Run(old(frames.State()), old(frames.Rest()));
        && old(Due()) == []
        && (if r.failed || |r.line| > SseLines.MAX_LINE then Now() == old(Now()).(failed := true)
            else Reading() && Now() == old(Now()) && frames.Rest() == "" && frames.State() == r)
    {
      hide SseLines.Run, SseLines.Events, OrdsOf, Parsed;
      var answer, data := frames.Next();
      if answer == Event {
        ParsedFirst(parse, data, SseLines.Events(frames.State(), frames.Rest()));
        return Some(parse(data));
      }
      assert Parsed(parse, []) == [];
      if answer == Fail { failed := true; }
      return None;
    }

    /** The next event of the bytes fed; false once there is none or the stream has ended. */
    method PullEvent(out0: seq<Chunk>) returns (more: bool, out: seq<Chunk>)
      requires Reading()
      modifies this, frames
      ensures Valid()
      ensures more ==>
        && Reading() && |frames.Rest()| < |old(frames.Rest())|
        && SseLines.Run(frames.State(), frames.Rest()) == SseLines.Run(old(frames.State()), old(frames.Rest()))
        && Run(Now(), Due()) == Run(old(Now()), old(Due())) && out + Output(Now(), Due()) == out0 + Output(old(Now()), old(Due()))
      ensures !more ==>
        var r, t := SseLines.Run(old(frames.State()), old(frames.Rest())), Run(old(Now()), old(Due()));
        && out == out0 + Output(old(Now()), old(Due())) && (!Ended(Now()) ==> Reading() && frames.Rest() == "")
        && (Ended(t) ==> Now() == t)
        && (!Ended(t) && !r.failed && |r.line| <= SseLines.MAX_LINE ==> Now() == t && frames.State() == r)
        && (!Ended(t) && (r.failed || |r.line| > SseLines.MAX_LINE) ==> Now() == t.(failed := true))
    {
      hide SseLines.Run, SseLines.Events, Run, Output, OrdsOf, Parsed;
      out := out0;
      RunNothing(Now());
      var e := NextEvent();
      if e.None? { return false, out; }
      more, out := HandleEvent(e.value, Due(), out);
    }

    /** One event, `rest` being those after it. */
    method HandleEvent(e: Event, ghost rest: seq<Event>, out0: seq<Chunk>) returns (more: bool, out: seq<Chunk>)
      requires Reading()
      modifies this, frames`stopped
      ensures Valid() && more == !Ended(Now()) && (more ==> Reading())
      ensures Run(Now(), rest) == Run(old(Now()), [e] + rest)
      ensures out + Output(Now(), rest) == out0 + Output(old(Now()), [e] + rest)
      ensures !more ==> Run(Now(), rest) == Now() && out == out0 + Output(old(Now()), [e] + rest)
    {
      hide Next, Says, Run, Output, OrdsOf;
      ghost var s := Now();
      FirstEvent(s, e, rest);
      JoinOut(out0, Says(s, e), Output(Next(s, e), rest));
      out := Dispatch(e, out0);
      more := true;
      if failed || done {
        OutputEnded(Now(), rest);
        if done { frames.stopped := true; }
        more := false;
      }
    }

    /** Appends the translation of these bytes; false, for good, once the stream failed. */
    method Feed(bytes: string, out0: seq<Chunk>) returns (ok: bool, out: seq<Chunk>)
      requires Valid() && (!Ended(Now()) ==> Reading() && frames.Rest() == "")
      modifies this, frames
      ensures Valid() && ok == !failed && (!Ended(Now()) ==> Reading() && frames.Rest() == "")
      ensures var es := Parsed(parse, SseLines.Events(old(frames.State()), bytes));
              var r, t := SseLines.Run(old(frames.State()), bytes), Run(old(Now()), es);
              && out == out0 + Output(old(Now()), es)
              && (Ended(t) ==> Now() == t)
              && (!Ended(t) && !r.failed && |r.line| <= SseLines.MAX_LINE ==> Now() == t && frames.State() == r)
              && (!Ended(t) && (r.failed || |r.line| > SseLines.MAX_LINE) ==> Now() == t.(failed := true))
    {
      hide SseLines.Run, SseLines.Events, Run, Output, OrdsOf, Parsed;
      ghost var s0, f0 := Now(), frames.State();
      ghost var all := Parsed(parse, SseLines.Events(f0, bytes));
      out := out0;
      if failed || done {
        OutputEnded(s0, all);
        return !failed, out;
      }
      frames.Feed(bytes);
      var more := true;
      while more
        invariant Valid()
        invariant more ==>
          && Reading() && SseLines.Run(frames.State(), frames.Rest()) == SseLines.Run(f0, bytes)
          && Run(Now(), Due()) == Run(s0, all) && out + Output(Now(), Due()) == out0 + Output(s0, all)
        invariant !more ==>
          var r, t := SseLines.Run(f0, bytes), Run(s0, all);
          && out == out0 + Output(s0, all) && (!Ended(Now()) ==> Reading() && frames.Rest() == "")
          && (Ended(t) ==> Now() == t)
          && (!Ended(t) && !r.failed && |r.line| <= SseLines.MAX_LINE ==> Now() == t && frames.State() == r)
          && (!Ended(t) && (r.failed || |r.line| > SseLines.MAX_LINE) ==> Now() == t.(failed := true))
        decreases more, |frames.Rest()|
      {
        more, out := PullEvent(out);
      }
      return !failed, out;
    }

    /** Upstream EOF. */
    method FinishStream(out0: seq<Chunk>) returns (ok: bool, out: seq<Chunk>)
      requires Valid()
      modifies this`done, this`usageSent, this`finishSent
      ensures Valid() && ok == EndsWell(old(Now())) && out == out0 + AtEof(old(Now()))
    {
      hide OrdsOf;
      out := out0;
      if failed || !(done || finish.Some?) { return false, out; }
      if done { return true, out; }
      out := Close(out);
      return true, out;
    }
  }

  lemma NoSays(s: State, e: Event)
    requires e.ErrorEvent? || e.Garbled? || e.OtherEvent?
    ensures Says(s, e) == []
  {}

  lemma RunNothing(s: State)
    ensures Run(s, []) == s && Output(s, []) == []
  {}

  lemma FirstEvent(s: State, e: Event, more: seq<Event>)
    ensures Run(s, [e] + more) == Run(Next(s, e), more) && Output(s, [e] + more) == Says(s, e) + Output(Next(s, e), more)
  {
    hide Next, Says;
    assert ([e] + more)[1..] == more;
  }

  lemma JoinOut(a: seq<Chunk>, b: seq<Chunk>, c: seq<Chunk>)
    ensures a + (b + c) == a + b + c
  {}

  // ---------------------------------------------------------------- a whole stream

  /** The events of a stream, read line by line. */
  function StreamEvents(parse: string -> Event, stream: string): seq<Event> {
    Parsed(parse, SseLines.Read(None, SseLines.Lines(stream)))
  }

  lemma MoreEvents(parse: string -> Event, s: State, a: string, b: string)
    ensures var f := SseLines.Run(SseLines.START, a);
            var es, more := Parsed(parse, SseLines.Events(SseLines.START, a)), Parsed(parse, SseLines.Events(f, b));
            && Parsed(parse, SseLines.Events(SseLines.START, a + b)) == es + more
            && SseLines.Run(SseLines.START, a + b) == SseLines.Run(f, b)
            && Run(s, es + more) == Run(Run(s, es), more) && Output(s, es + more) == Output(s, es) + Output(Run(s, es), more)
  {
    hide SseLines.Run, SseLines.Events, Run, Output, Parsed;
    var f := SseLines.Run(SseLines.START, a);
    SseLines.Pieces(SseLines.START, a, b);
    ParsedSum(parse, SseLines.Events(SseLines.START, a), SseLines.Events(f, b));
    RunSum(s, Parsed(parse, SseLines.Events(SseLines.START, a)), Parsed(parse, SseLines.Events(f, b)));
  }

  lemma StreamRead(parse: string -> Event, stream: string)
    requires !SseLines.Run(SseLines.START, stream).failed
    ensures Parsed(parse, SseLines.Events(SseLines.START, stream)) == StreamEvents(parse, stream)
  {
    hide SseLines.Run, SseLines.Events, SseLines.Read, SseLines.Lines;
    SseLines.EventsAreRead(SseLines.START, stream);
  }

  /** The events of the first `k` reads, and where they leave the translator. */
  function EventsBy(parse: string -> Event, parts: seq<string>, k: nat): seq<Event>
    requires k <= |parts|
  {
    Parsed(parse, SseLines.Events(SseLines.START, Join(parts[..k])))
  }

  function StateBy(parse: string -> Event, asked: bool, parts: seq<string>, k: nat): State
    requires k <= |parts|
  {
    Run(Start(asked), EventsBy(parse, parts, k))
  }

  /** A cap trips in the k-th read, and the stream had not ended by then. */
  predicate CutOff(parse: string -> Event, asked: bool, parts: seq<string>, k: nat)
    requires k <= |parts|
  {
    Trips(parts, k) && !Ended(StateBy(parse, asked, parts, k))
  }

  lemma NextRead(parse: string -> Event, asked: bool, parts: seq<string>, n: nat)
    requires n < |parts|
    ensures var f := SseLines.Run(SseLines.START, Join(parts[..n]));
            var more := Parsed(parse, SseLines.Events(f, parts[n]));
            && SseLines.Run(SseLines.START, Join(parts[..n + 1])) == SseLines.Run(f, parts[n])
            && StateBy(parse, asked, parts, n + 1) == Run(StateBy(parse, asked, parts, n), more)
            && Output(Start(asked), EventsBy(parse, parts, n + 1))
               == Output(Start(asked), EventsBy(parse, parts, n)) + Output(StateBy(parse, asked, parts, n), more)
  {
    hide SseLines.Run, SseLines.Events, Run, Output, Parsed, Join;
    JoinNext(parts, n);
    MoreEvents(parse, Start(asked), Join(parts[..n]), parts[n]);
  }

  lemma NoRead(parse: string -> Event, asked: bool, parts: seq<string>)
    ensures EventsBy(parse, parts, 0) == [] && StateBy(parse, asked, parts, 0) == Start(asked)
    ensures SseLines.Run(SseLines.START, Join(parts[..0])) == SseLines.START && Output(Start(asked), []) == []
    ensures !Trips(parts, 0)
  {
    NothingYet(parts);
    RunNone(SseLines.START);
  }

  /** Once ended, later reads change nothing. */
  lemma EndedReads(parse: string -> Event, asked: bool, parts: seq<string>, n: nat)
    requires n < |parts| && Ended(StateBy(parse, asked, parts, n))
    ensures StateBy(parse, asked, parts, n + 1) == StateBy(parse, asked, parts, n)
    ensures Output(Start(asked), EventsBy(parse, parts, n + 1)) == Output(Start(asked), EventsBy(parse, parts, n))
  {
    hide SseLines.Run, SseLines.Events, Run, Output, Parsed, Join, StateBy, EventsBy;
    NextRead(parse, asked, parts, n);
    OutputEnded(StateBy(parse, asked, parts, n), Parsed(parse, SseLines.Events(SseLines.Run(SseLines.START, Join(parts[..n])), parts[n])));
  }

  /** A stream no cap cut off says what its lines' events do, whatever follows its end. */
  lemma ReadOfLines(parse: string -> Event, asked: bool, parts: seq<string>)
    requires !CutOff(parse, asked, parts, |parts|)
    ensures var es := StreamEvents(parse, Join(parts));
            && StateBy(parse, asked, parts, |parts|) == Run(Start(asked), es)
            && Output(Start(asked), EventsBy(parse, parts, |parts|)) == Output(Start(asked), es)
  {
    hide SseLines.Run, SseLines.Events, SseLines.Read, SseLines.Lines, Run, Output, Join, Parsed, Trips, StreamEvents, Ended;
    var stream := Join(parts);
    assert parts[..|parts|] == parts;
    assert EventsBy(parse, parts, |parts|) == Parsed(parse, SseLines.Events(SseLines.START, stream));
    if Ended(StateBy(parse, asked, parts, |parts|)) {
      EndedStream(parse, asked, stream);
    } else {
      OpenReads(parts);
      StreamRead(parse, stream);
    }
  }

  lemma OpenReads(parts: seq<string>)
    requires !Trips(parts, |parts|)
    ensures !SseLines.Run(SseLines.START, Join(parts)).failed
  {
    hide SseLines.Run, Join;
    assert parts[..|parts|] == parts;
  }

  /** Once it ended, the events after that say nothing. */
  lemma EndedStream(parse: string -> Event, asked: bool, stream: string)
    requires Ended(Run(Start(asked), Parsed(parse, SseLines.Events(SseLines.START, stream))))
    ensures var first, es := Parsed(parse, SseLines.Events(SseLines.START, stream)), StreamEvents(parse, stream);
            Run(Start(asked), first) == Run(Start(asked), es) && Output(Start(asked), first) == Output(Start(asked), es)
  {
    hide SseLines.Run, SseLines.Events, SseLines.Read, SseLines.Lines, Run, Output, Parsed, Ended;
    var first, all := SseLines.Events(SseLines.START, stream), SseLines.Read(None, SseLines.Lines(stream));
    SseLines.EventsBegin(SseLines.START, stream);
    assert all == first + all[|first|..];
    ParsedSum(parse, first, all[|first|..]);
    EndIsFinal(Start(asked), Parsed(parse, first), Parsed(parse, all[|first|..]));
  }

  /** However the venue's stream is cut into reads: when a cap trips before the stream ended, it has
      failed with what the events until then say; otherwise the chunks are those of its events, line
      by line, and EOF ends it well exactly when they say so. */
  method TranslateParts(parse: string -> Event, usageAsked: bool, parts: seq<string>) returns (ok: bool, out: seq<Chunk>)
    ensures (forall k | 0 <= k <= |parts| :: !CutOff(parse, usageAsked, parts, k)) ==>
              var es := StreamEvents(parse, Join(parts));
              var s := Run(Start(usageAsked), es);
              ok == EndsWell(s) && out == Output(Start(usageAsked), es) + AtEof(s)
    ensures forall k | 0 <= k <= |parts| && CutOff(parse, usageAsked, parts, k) ::
              (forall j | 0 <= j < k :: !CutOff(parse, usageAsked, parts, j)) ==>
                !ok && out == Output(Start(usageAsked), EventsBy(parse, parts, k))
  {
    hide SseLines.Run, SseLines.Events, Run, Output, Parsed, Join, OrdsOf, EventsBy, StateBy, StreamEvents, CutOff;
    var t := new AnthropicToOpenAiSse(parse, usageAsked);
    ok, out := true, [];
    NoRead(parse, usageAsked, parts);
    NotYetCut(parse, usageAsked, parts);
    ghost var cut: Option<nat> := None;     // the first read a cap tripped in
    for n := 0 to |parts|
      invariant fresh(t) && fresh(t.frames) && t.parse == parse && t.usageAsked == usageAsked && t.Valid()
      invariant !Ended(t.Now()) ==> t.Reading() && t.frames.Rest() == ""
      invariant cut.None? ==>
        && (forall k | 0 <= k <= n :: !CutOff(parse, usageAsked, parts, k))
        && t.Now() == StateBy(parse, usageAsked, parts, n) && out == Output(Start(usageAsked), EventsBy(parse, parts, n))
        && (!Ended(t.Now()) ==> t.frames.State() == SseLines.Run(SseLines.START, Join(parts[..n])))
      invariant cut.Some? ==>
        && cut.value <= n && CutOff(parse, usageAsked, parts, cut.value)
        && (forall k | 0 <= k < cut.value :: !CutOff(parse, usageAsked, parts, k))
        && t.failed && out == Output(Start(usageAsked), EventsBy(parse, parts, cut.value))
    {
      if Ended(t.Now()) {
        OutputEnded(t.Now(), Parsed(parse, SseLines.Events(t.frames.State(), parts[n])));
        if cut.None? {
          EndedReads(parse, usageAsked, parts, n);
          EndedNotCut(parse, usageAsked, parts, n + 1);
        }
      } else {
        NextRead(parse, usageAsked, parts, n);
        CutWhen(parse, usageAsked, parts, n + 1);
        if CutOff(parse, usageAsked, parts, n + 1) { cut := Some(n + 1); }
      }
      ok, out := t.Feed(parts[n], out);
    }
    if cut.None? { ReadOfLines(parse, usageAsked, parts); }
    ok, out := t.FinishStream(out);
  }

  lemma NotYetCut(parse: string -> Event, asked: bool, parts: seq<string>)
    ensures !CutOff(parse, asked, parts, 0)
  {
    hide StateBy;
    NoRead(parse, asked, parts);
  }

  lemma EndedNotCut(parse: string -> Event, asked: bool, parts: seq<string>, k: nat)
    requires k <= |parts| && Ended(StateBy(parse, asked, parts, k))
    ensures !CutOff(parse, asked, parts, k)
  {}

  lemma CutWhen(parse: string -> Event, asked: bool, parts: seq<string>, k: nat)
    requires k <= |parts|
    ensures CutOff(parse, asked, parts, k) <==>
            var r := SseLines.Run(SseLines.START, Join(parts[..k]));
            (r.failed || |r.line| > SseLines.MAX_LINE) && !Ended(StateBy(parse, asked, parts, k))
  {
    hide StateBy, SseLines.Run, Join;
  }
}
