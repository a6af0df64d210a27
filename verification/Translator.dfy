/** Anthropic's stream events turned into OpenAI's chunks (`AnthropicToOpenAiSse` in
    provider/src/sse.cpp): what each event makes it say, and what a client reassembles from it.
 */
module Translator {
  import opened Options

  const MAX_BLOCKS: nat := 256
  const MAX_ECHO: nat := 256

  // ---------------------------------------------------------------- in and out

  /** What the parser makes of one event's data. Strings are raw, as escaped; an index that is not
      a whole number is -1. A stop reason comes as OpenAI's name for it, empty if it names a failure. */
  datatype Event =
    | DoneMark
    | Garbled
    | ErrorEvent
    | MessageStart(named: Option<(string, string)>)
    | TextDelta(text: string)
    | ArgsDelta(index: int, json: string)
    | MessageDelta(stop: Option<string>)
    | MessageStop
    | ToolStart(index: int, id: string, name: string)
    | OtherEvent

  datatype Chunk =
    | Role
    | Content(text: string)
    | ToolOpen(ord: nat, id: string, name: string)
    | ToolArgs(ord: nat, fragment: string)
    | Finish(reason: string)
    | Usage
    | Done

  // ---------------------------------------------------------------- raw spans

  const HEX: string := "0123456789abcdef"

  /** A byte of a raw span: a control byte goes as `\u00XX`. */
  function Safe(c: char): string {
    if c >= ' ' then [c]
    else
      var n := c as int;
      "\\u00" + [HEX[n / 16], HEX[n % 16]]
  }

  function Sanitized(raw: string): string {
    if raw == "" then "" else Safe(raw[0]) + Sanitized(raw[1..])
  }

  lemma {:induction false} SanitizedSum(a: string, b: string)
    ensures Sanitized(a + b) == Sanitized(a) + Sanitized(b)
    decreases |a|
  {
    hide Safe;
    if a == "" {
      assert a + b == b;
    } else {
      assert (a + b)[0] == a[0] && (a + b)[1..] == a[1..] + b;
      SanitizedSum(a[1..], b);
    }
  }

  lemma {:induction false} CleanSpan(raw: string)
    requires forall k | 0 <= k < |raw| :: raw[k] >= ' '
    ensures Sanitized(raw) == raw
    decreases |raw|
  {
    if raw != "" { CleanSpan(raw[1..]); }
  }

  /** A control byte, escaped. */
  method AppendEscaped(out0: string, c: char) returns (out: string)
    requires c < ' '
    ensures out == out0 + Safe(c)
  {
    var n := c as int;
    out := out0 + "\\u00";
    out := out + [HEX[n / 16]];
    out := out + [HEX[n % 16]];
  }

  /** `append_sanitized`: clean runs are copied whole. */
  method AppendSanitized(out0: string, raw: string) returns (out: string)
    ensures out == out0 + Sanitized(raw)
  {
    hide Safe, Sanitized;
    out := out0;
    var start := 0;
    assert raw[0..] == raw;
    for i := 0 to |raw|
      invariant start <= i && forall k | start <= k < i :: raw[k] >= ' '
      invariant out0 + Sanitized(raw) == out + Sanitized(raw[start..])
    {
      if raw[i] < ' ' {
        RunThenByte(raw, start, i);
        JoinThree(out, raw[start..i], Safe(raw[i]), Sanitized(raw[i + 1..]));
        out := AppendEscaped(out + raw[start..i], raw[i]);
        start := i + 1;
      }
    }
    CleanSpan(raw[start..]);
    out := out + raw[start..];
  }

  lemma JoinThree(a: string, b: string, c: string, d: string)
    ensures a + (b + c + d) == a + b + c + d
  {}

  lemma RunThenByte(raw: string, start: nat, i: nat)
    requires start <= i < |raw| && forall k | start <= k < i :: raw[k] >= ' '
    ensures Sanitized(raw[start..]) == raw[start..i] + Safe(raw[i]) + Sanitized(raw[i + 1..])
  {
    hide Safe;
    CleanSpan(raw[start..i]);
    assert raw[start..] == raw[start..i] + raw[i..];
    SanitizedSum(raw[start..i], raw[i..]);
    assert raw[i..][1..] == raw[i + 1..];
  }

  // ---------------------------------------------------------------- one event

  datatype State = State(
    usageAsked: bool,
    role: bool,                // the role chunk has gone
    finish: Option<string>,    // the stop reason stated
    finishSent: bool,
    done: bool,
    failed: bool,
    toolOpen: bool,            // a call's arguments may still be cut
    ords: map<nat, nat>,       // block index to the call opened at it last
    next: nat)                 // calls opened

  function Start(usageAsked: bool): State { State(usageAsked, false, None, false, false, false, false, map[], 0) }

  predicate Ended(s: State) { s.done || s.failed }

  function DefaultFinish(s: State): string { if s.next > 0 then "tool_calls" else "stop" }

  function RoleFirst(s: State): seq<Chunk> { if s.role then [] else [Role] }

  function FinishNow(s: State): string { if s.finish.Some? then s.finish.value else DefaultFinish(s) }

  /** The finish chunk unless it went, the usage if asked for, and the end. */
  function Closing(s: State): seq<Chunk> {
    (if s.finishSent then [] else [Finish(FinishNow(s))]) + (if s.usageAsked then [Usage] else []) + [Done]
  }

  function Closed(s: State): State { s.(finishSent := true, done := true) }

  /** A call that can be passed on: named, at an index within the cap, with room for one more. */
  predicate Usable(calls: nat, index: int, name: string) {
    name != "" && calls < MAX_BLOCKS && 0 <= index < MAX_BLOCKS
  }

  predicate TooLong(id: string, model: string) { MAX_ECHO < |id| || MAX_ECHO < |model| }

  function Next(s: State, e: Event): State {
    if Ended(s) then s
    else
      match e
      case DoneMark => if s.toolOpen then s else Closed(s)
      case Garbled => s
      case ErrorEvent => s.(failed := true)
      case MessageStart(named) =>
        if named.Some? && TooLong(named.value.0, named.value.1) then s.(failed := true)
        else s.(role := true)
      case TextDelta(_) => s.(role := true)
      case ArgsDelta(_, _) => s
      case MessageDelta(stop) =>
        if stop == Some("") then s.(failed := true)
        else
          var t := if stop.Some? then s.(finish := stop, toolOpen := false) else s;
          if t.finish.Some? then t.(finishSent := true) else t
      case MessageStop => Closed(s.(toolOpen := false))
      case ToolStart(index, _, name) =>
        if Usable(s.next, index, name)
        then s.(ords := s.ords[index := s.next], next := s.next + 1, toolOpen := true, role := true) else s
      case OtherEvent => s
  }

  /** The chunks an event makes it write. */
  function Says(s: State, e: Event): seq<Chunk> {
    if Ended(s) then []
    else
      match e
      case DoneMark => if s.toolOpen then [] else Closing(s)
      case Garbled => []
      case ErrorEvent => []
      case MessageStart(_) => if Next(s, e).failed then [] else RoleFirst(s)
      case TextDelta(text) => RoleFirst(s) + [Content(Sanitized(text))]
      case ArgsDelta(index, json) =>
        if index >= 0 && index in s.ords && json != "" then [ToolArgs(s.ords[index], Sanitized(json))] else []
      case MessageDelta(stop) =>
        var t := Next(s, e);
        if !t.failed && t.finish.Some? && !s.finishSent then [Finish(t.finish.value)] else []
      case MessageStop => Closing(s)
      case ToolStart(index, id, name) =>
        if Usable(s.next, index, name) then RoleFirst(s) + [ToolOpen(s.next, Sanitized(id), Sanitized(name))] else []
      case OtherEvent => []
  }

  function Run(s: State, es: seq<Event>): State
    decreases |es|
  {
    if es == [] then s else Run(Next(s, es[0]), es[1..])
  }

  function Output(s: State, es: seq<Event>): seq<Chunk>
    decreases |es|
  {
    if es == [] then [] else Says(s, es[0]) + Output(Next(s, es[0]), es[1..])
  }

  /** A run in two pieces. */
  lemma {:induction false} RunSum(s: State, a: seq<Event>, b: seq<Event>)
    ensures Run(s, a + b) == Run(Run(s, a), b) && Output(s, a + b) == Output(s, a) + Output(Run(s, a), b)
    decreases |a|
  {
    hide Next, Says;
    if a == [] {
      assert a + b == b;
    } else {
      assert (a + b)[0] == a[0] && (a + b)[1..] == a[1..] + b;
      RunSum(Next(s, a[0]), a[1..], b);
    }
  }

  /** Upstream EOF: true, and what is written, once a stop reason or the end was stated. */
  predicate EndsWell(s: State) { !s.failed && (s.done || s.finish.Some?) }

  function AtEof(s: State): seq<Chunk> { if EndsWell(s) && !s.done then Closing(s) else [] }

  // ---------------------------------------------------------------- what a client reassembles

  datatype Call = Call(id: string, name: string, args: string)

  datatype Reply = Reply(text: string, calls: seq<Call>)

  const EMPTY := Reply("", [])

  /** An OpenAI client, chunk by chunk. None: a chunk spoke of a call not opened, or out of turn. */
  function Take(r: Option<Reply>, c: Chunk): Option<Reply> {
    if r.None? then None
    else
      match c
      case Content(text) => Some(r.value.(text := r.value.text + text))
      case ToolOpen(ord, id, name) =>
        if ord == |r.value.calls| then Some(r.value.(calls := r.value.calls + [Call(id, name, "")])) else None
      case ToolArgs(ord, fragment) =>
        if ord < |r.value.calls|
        then Some(r.value.(calls := r.value.calls[ord := r.value.calls[ord].(args := r.value.calls[ord].args + fragment)]))
        else None
      case _ => r
  }

  function Assembled(r: Option<Reply>, chunks: seq<Chunk>): Option<Reply>
    decreases |chunks|
  {
    if chunks == [] then r else Assembled(Take(r, chunks[0]), chunks[1..])
  }

  /** An Anthropic client: its reply so far, and which call each block index holds. */
  datatype Blocks = Blocks(reply: Reply, at: map<nat, nat>)

  function Hears(b: Blocks, e: Event): Blocks {
    match e
    case TextDelta(text) => b.(reply := b.reply.(text := b.reply.text + text))
    case ToolStart(index, id, name) =>
      if Usable(|b.reply.calls|, index, name)
      then Blocks(b.reply.(calls := b.reply.calls + [Call(id, name, "")]), b.at[index := |b.reply.calls|]) else b
    case ArgsDelta(index, json) =>
      if index >= 0 && index in b.at && b.at[index] < |b.reply.calls| then
        var k := b.at[index];
        b.(reply := b.reply.(calls := b.reply.calls[k := b.reply.calls[k].(args := b.reply.calls[k].args + json)]))
      else b
    case _ => b
  }

  function Heard(b: Blocks, es: seq<Event>): Blocks
    decreases |es|
  {
    if es == [] then b else Heard(Hears(b, es[0]), es[1..])
  }

  /** The events up to the one that ends or fails the stream. */
  function Read(s: State, es: seq<Event>): seq<Event>
    decreases |es|
  {
    if es == [] || Ended(s) then [] else [es[0]] + Read(Next(s, es[0]), es[1..])
  }

  function SafeCall(c: Call): Call { Call(Sanitized(c.id), Sanitized(c.name), Sanitized(c.args)) }

  function SafeCalls(calls: seq<Call>): (r: seq<Call>)
    ensures |r| == |calls|
  {
    seq(|calls|, i requires 0 <= i < |calls| => SafeCall(calls[i]))
  }

  function SafeReply(r: Reply): Reply { Reply(Sanitized(r.text), SafeCalls(r.calls)) }

  // ---------------------------------------------------------------- they agree

  lemma {:induction false} AssembledSum(r: Option<Reply>, a: seq<Chunk>, b: seq<Chunk>)
    ensures Assembled(r, a + b) == Assembled(Assembled(r, a), b)
    decreases |a|
  {
    hide Take;
    if a == [] {
      assert a + b == b;
    } else {
      assert (a + b)[1..] == a[1..] + b;
      AssembledSum(Take(r, a[0]), a[1..], b);
    }
  }

  lemma AssembledOne(r: Option<Reply>, c: Chunk)
    ensures Assembled(r, [c]) == Take(r, c)
  {
    hide Take;
    assert [c][1..] == [];
  }

  predicate Silent(c: Chunk) { c.Role? || c.Finish? || c.Usage? || c.Done? }

  lemma {:induction false} AssembledSilent(r: Option<Reply>, chunks: seq<Chunk>)
    requires forall c <- chunks :: Silent(c)
    ensures Assembled(r, chunks) == r
    decreases |chunks|
  {
    if chunks != [] {
      assert Silent(chunks[0]) && forall c <- chunks[1..] :: c in chunks;
      AssembledSilent(r, chunks[1..]);
    }
  }

  /** The role, if due, then one chunk. */
  lemma AssembledLast(r: Option<Reply>, before: seq<Chunk>, c: Chunk)
    requires forall x <- before :: Silent(x)
    ensures Assembled(r, before + [c]) == Take(r, c)
  {
    hide Take;
    AssembledSum(r, before, [c]);
    AssembledSilent(r, before);
    AssembledOne(r, c);
  }

  /** The translator's map of blocks is an Anthropic client's. */
  predicate Matches(s: State, b: Blocks) {
    s.next == |b.reply.calls| && s.ords == b.at && forall i <- b.at :: b.at[i] < |b.reply.calls|
  }

  lemma SafeArgs(calls: seq<Call>, k: nat, json: string)
    requires k < |calls|
    ensures var c := calls[k];
            SafeCalls(calls[k := c.(args := c.args + json)])
            == SafeCalls(calls)[k := SafeCall(c).(args := SafeCall(c).args + Sanitized(json))]
  {
    hide Sanitized;
    SanitizedSum(calls[k].args, json);
  }

  lemma NoArgs(calls: seq<Call>, k: nat)
    requires k < |calls|
    ensures calls[k := calls[k].(args := calls[k].args + "")] == calls
  {
    assert calls[k].args + "" == calls[k].args;
  }

  lemma StepText(s: State, b: Blocks, text: string)
    requires !Ended(s)
    ensures Assembled(Some(SafeReply(b.reply)), Says(s, TextDelta(text))) == Some(SafeReply(Hears(b, TextDelta(text)).reply))
  {
    hide Sanitized, Assembled;
    AssembledLast(Some(SafeReply(b.reply)), RoleFirst(s), Content(Sanitized(text)));
    SanitizedSum(b.reply.text, text);
  }

  lemma StepArgs(s: State, b: Blocks, index: int, json: string)
    requires !Ended(s) && Matches(s, b)
    ensures Assembled(Some(SafeReply(b.reply)), Says(s, ArgsDelta(index, json))) == Some(SafeReply(Hears(b, ArgsDelta(index, json)).reply))
    ensures Matches(Next(s, ArgsDelta(index, json)), Hears(b, ArgsDelta(index, json)))
  {
    hide Sanitized, SafeCalls, Assembled;
    var r := Some(SafeReply(b.reply));
    if index >= 0 && index in s.ords {
      var k := s.ords[index];
      if json == "" {
        NoArgs(b.reply.calls, k);
        AssembledSilent(r, []);
      } else {
        AssembledOne(r, ToolArgs(k, Sanitized(json)));
        SafeArgs(b.reply.calls, k, json);
        SafeAt(b.reply.calls, k);
      }
    } else {
      AssembledSilent(r, []);
    }
  }

  lemma SafeAt(calls: seq<Call>, k: nat)
    requires k < |calls|
    ensures SafeCalls(calls)[k] == SafeCall(calls[k])
  {}

  lemma SafeMore(calls: seq<Call>, id: string, name: string)
    ensures SafeCalls(calls + [Call(id, name, "")]) == SafeCalls(calls) + [Call(Sanitized(id), Sanitized(name), "")]
  {
    assert Sanitized("") == "";
  }

  lemma StepTool(s: State, b: Blocks, index: int, id: string, name: string)
    requires !Ended(s) && Matches(s, b)
    ensures var e := ToolStart(index, id, name);
            && Assembled(Some(SafeReply(b.reply)), Says(s, e)) == Some(SafeReply(Hears(b, e).reply))
            && Matches(Next(s, e), Hears(b, e))
  {
    hide Sanitized, SafeCalls, Assembled;
    var r := Some(SafeReply(b.reply));
    if Usable(s.next, index, name) {
      AssembledLast(r, RoleFirst(s), ToolOpen(s.next, Sanitized(id), Sanitized(name)));
      SafeMore(b.reply.calls, id, name);
    } else {
      AssembledSilent(r, []);
    }
  }

  lemma StepOther(s: State, b: Blocks, e: Event)
    requires !Ended(s) && Matches(s, b) && !e.TextDelta? && !e.ArgsDelta? && !e.ToolStart?
    ensures Assembled(Some(SafeReply(b.reply)), Says(s, e)) == Some(SafeReply(Hears(b, e).reply))
    ensures Matches(Next(s, e), Hears(b, e))
  {
    hide Sanitized, SafeCalls, Assembled, FinishNow;
    assert forall c <- Says(s, e) :: Silent(c);
    AssembledSilent(Some(SafeReply(b.reply)), Says(s, e));
  }

  lemma StepAgrees(s: State, b: Blocks, e: Event)
    requires !Ended(s) && Matches(s, b)
    ensures Assembled(Some(SafeReply(b.reply)), Says(s, e)) == Some(SafeReply(Hears(b, e).reply))
    ensures Matches(Next(s, e), Hears(b, e))
  {
    hide Sanitized, SafeCalls, Assembled, Says, SafeReply;
    if e.TextDelta? { StepText(s, b, e.text); }
    else if e.ArgsDelta? { StepArgs(s, b, e.index, e.json); }
    else if e.ToolStart? { StepTool(s, b, e.index, e.id, e.name); }
    else { StepOther(s, b, e); }
  }

  lemma {:induction false} OutputEnded(s: State, es: seq<Event>)
    requires Ended(s)
    ensures Output(s, es) == [] && Run(s, es) == s
    decreases |es|
  {
    if es != [] { OutputEnded(s, es[1..]); }
  }

  lemma {:induction false} RunAgrees(s: State, b: Blocks, es: seq<Event>)
    requires Matches(s, b)
    ensures Assembled(Some(SafeReply(b.reply)), Output(s, es)) == Some(SafeReply(Heard(b, Read(s, es)).reply))
    decreases |es|
  {
    hide Sanitized, SafeCalls, Assembled, Says, Next, Hears, Matches, SafeReply;
    if Ended(s) {
      OutputEnded(s, es);
      AssembledSilent(Some(SafeReply(b.reply)), []);
    } else if es == [] {
      AssembledSilent(Some(SafeReply(b.reply)), []);
    } else {
      StepAgrees(s, b, es[0]);
      RunAgrees(Next(s, es[0]), Hears(b, es[0]), es[1..]);
      AssembledSum(Some(SafeReply(b.reply)), Says(s, es[0]), Output(Next(s, es[0]), es[1..]));
      assert ([es[0]] + Read(Next(s, es[0]), es[1..]))[1..] == Read(Next(s, es[0]), es[1..]);
    }
  }

  /** For every run of events, a client of the chunks assembles the text and the calls a client of
      the events does, up to the terminal one; ordinals count up from 0 and arguments only go to a
      call opened. */
  lemma SameReply(usageAsked: bool, es: seq<Event>)
    ensures var s := Start(usageAsked);
            Assembled(Some(EMPTY), Output(s, es)) == Some(SafeReply(Heard(Blocks(EMPTY, map[]), Read(s, es)).reply))
  {
    hide Assembled, Output, Heard, Read;
    assert SafeReply(EMPTY) == EMPTY;
    RunAgrees(Start(usageAsked), Blocks(EMPTY, map[]), es);
  }
}
