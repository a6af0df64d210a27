/** What a reader of the translated request gets back: every message's role, text, calls and results,
    once and in order.
 */
module MessageReader {
  import opened Json
  import opened Options
  import opened Messages

  /** One thing a conversation holds. */
  datatype Heard =
    | Said(role: string, text: string)
    | Called(role: string, id: string, name: string, input: Value)
    | Gave(role: string, id: string, text: string)

  // ---------------------------------------------------------------- reading the turns

  function Look(members: seq<Member>, key: string): Option<Value>
    decreases |members|
  {
    if members == [] then None else if members[0].key == key then Some(members[0].value) else Look(members[1..], key)
  }

  /** The string at a key of an object; empty if there is none. */
  function StringAt(v: Value, key: string): string {
    if v.Obj? && Look(v.members, key).Some? && Look(v.members, key).value.Str? then Look(v.members, key).value.raw else ""
  }

  function ReadBlock(role: string, v: Value): seq<Heard> {
    if StringAt(v, "type") == "text" then [Said(role, StringAt(v, "text"))]
    else if StringAt(v, "type") == "tool_use" && Look(v.members, "input").Some? then
      [Called(role, StringAt(v, "id"), StringAt(v, "name"), Look(v.members, "input").value)]
    else if StringAt(v, "type") == "tool_result" then [Gave(role, StringAt(v, "tool_use_id"), StringAt(v, "content"))]
    else []
  }

  function ReadBlocks(role: string, items: seq<Item>): seq<Heard> {
    if items == [] then [] else ReadBlock(role, items[0].value) + ReadBlocks(role, items[1..])
  }

  function ReadTurn(v: Value): seq<Heard> {
    if !v.Obj? || Look(v.members, "content").None? then []
    else
      var role, content := StringAt(v, "role"), Look(v.members, "content").value;
      if content.Str? then [Said(role, content.raw)] else if content.Arr? then ReadBlocks(role, content.items) else []
  }

  function ReadTurns(vs: seq<Value>): seq<Heard> {
    if vs == [] then [] else ReadTurn(vs[0]) + ReadTurns(vs[1..])
  }

  // ---------------------------------------------------------------- what the messages hold

  /** A message's text, and its text part by part. */
  function PartTexts(parts: seq<Part>): seq<string> {
    if parts == [] then [] else (if parts[0].raw == "" then [] else [parts[0].raw]) + PartTexts(parts[1..])
  }

  function JoinedText(parts: seq<Part>): string { if parts == [] then "" else parts[0].raw + JoinedText(parts[1..]) }

  function MessageText(c: Content): string {
    match c
    case Absent => ""
    case Flat(raw) => raw
    case Parts(parts) => JoinedText(parts)
  }

  function SaidAll(role: string, texts: seq<string>): seq<Heard> {
    if texts == [] then [] else [Said(role, texts[0])] + SaidAll(role, texts[1..])
  }

  function CalledAll(calls: seq<Call>): seq<Heard> {
    if calls == [] then []
    else
      (if calls[0].name == "" || calls[0].input.None? then []
       else [Called("assistant", calls[0].id, calls[0].name, calls[0].input.value.value)]) + CalledAll(calls[1..])
  }

  /** A tool's result is given by the user; an assistant says its text, if any, and makes its named
      calls; anyone else's text is said at once, or part by part where one carries a breakpoint. */
  function Holds(m: Message): seq<Heard> {
    var role := if m.role.Assistant? then "assistant" else "user";
    if m.role.Tool? then [Gave("user", m.callId, MessageText(m.content))]
    else if m.role.Assistant? && m.calls != [] then
      (if MessageText(m.content) == "" then [] else [Said("assistant", MessageText(m.content))]) + CalledAll(m.calls)
    else if m.content.Parts? && exists p <- m.content.parts :: p.cache.Cached? && p.raw != "" then
      SaidAll(role, PartTexts(m.content.parts))
    else [Said(role, MessageText(m.content))]
  }

  function AllHold(ms: seq<Message>): seq<Heard> {
    if ms == [] then [] else (if ms[0].role.System? then [] else Holds(ms[0])) + AllHold(ms[1..])
  }

  // ---------------------------------------------------------------- they are the same

  lemma {:induction false} TextIs(c: Content)
    ensures TextOf(c).Some? ==> TextOf(c).value == MessageText(c)
  {
    if c.Parts? { PartsTextIs(c.parts); }
  }

  lemma {:induction false} PartsTextIs(parts: seq<Part>)
    ensures PartsText(parts).Some? ==> PartsText(parts).value == JoinedText(parts)
    decreases |parts|
  {
    if parts != [] { PartsTextIs(parts[1..]); }
  }

  lemma TurnReads(assistant: bool, content: Value)
    ensures var v := Turn(assistant, content); var role := if assistant then "assistant" else "user";
            ReadTurn(v) == if content.Str? then [Said(role, content.raw)] else if content.Arr? then ReadBlocks(role, content.items) else []
  {
    var ms := Turn(assistant, content).members;
    assert "content"[0] == 'c' && "role"[0] == 'r';
    assert ms[1..] == [Field("content", content)];
    assert Look(ms, "content") == Look(ms[1..], "content");
  }

  lemma Second(a: Member, b: Member, rest: seq<Member>, key: string)
    requires a.key != key && b.key == key
    ensures Look([a, b] + rest, key) == Some(b.value)
  {
    var s := [a, b] + rest;
    assert s[0] == a && s[1..] == [b] + rest && s[1..][0] == b;
    assert Look(s, key) == Look(s[1..], key);
  }

  lemma Third(a: Member, b: Member, c: Member, rest: seq<Member>, key: string)
    requires a.key != key && b.key != key && c.key == key
    ensures Look([a, b, c] + rest, key) == Some(c.value)
  {
    var s := [a, b, c] + rest;
    assert s[0] == a && s[1..] == [b, c] + rest;
    assert Look(s, key) == Look(s[1..], key);
    Second(b, c, rest, key);
  }

  lemma NamesDiffer()
    ensures "type" != "text" && "type" != "id" && "type" != "name" && "type" != "input" && "id" != "name" && "id" != "input"
    ensures "name" != "input" && "type" != "tool_use_id" && "type" != "content" && "tool_use_id" != "content"
    ensures "text" != "tool_use" && "text" != "tool_result" && "tool_use" != "tool_result"
  {
    assert "text"[1] == 'e' && "type"[1] == 'y' && "tool_use_id"[1] == 'o' && "tool_use"[1] == 'o' && "tool_result"[1] == 'o';
    assert "id"[0] == 'i' && "name"[0] == 'n' && "content"[0] == 'c' && |"input"| == 5;
    assert "tool_use"[5] == 'u' && "tool_result"[5] == 'r';
  }

  lemma TextBlockReads(role: string, raw: string, cache: Cache)
    ensures ReadBlock(role, TextBlock(raw, cache)) == [Said(role, raw)]
  {
    hide Look;
    NamesDiffer();
    var a, b := Field("type", Str("text")), Field("text", Str(raw));
    var rest := if cache.Cached? then [Field("cache_control", cache.value)] else [];
    var ms := TextBlock(raw, cache).members;
    assert ms == [a, b] + rest == [a] + ([b] + rest);
    First1(a, [b] + rest);
    Second(a, b, rest, "text");
  }

  lemma First1(a: Member, rest: seq<Member>)
    ensures Look([a] + rest, a.key) == Some(a.value)
  {}

  lemma UseReads(role: string, id: string, name: string, input: Doc)
    ensures ReadBlock(role, ToolUse(id, name, input)) == [Called(role, id, name, input.value)]
  {
    hide Look;
    NamesDiffer();
    var a, b, c := Field("type", Str("tool_use")), Field("id", Str(id)), Field("name", Str(name));
    var d := Member("", "input", "", input.pre, input.value, input.post);
    var ms := ToolUse(id, name, input).members;
    assert ms == [a] + [b, c, d] == [a, b] + [c, d] == [a, b, c] + [d];
    First1(a, [b, c, d]);
    Second(a, b, [c, d], "id");
    Third(a, b, c, [d], "name");
    Fourth(a, b, c, d, "input");
  }

  lemma Fourth(a: Member, b: Member, c: Member, d: Member, key: string)
    requires a.key != key && b.key != key && c.key != key && d.key == key
    ensures Look([a, b, c] + [d], key) == Some(d.value)
  {
    var s := [a, b, c] + [d];
    assert s[0] == a && s[1..] == [b, c, d] + [];
    assert Look(s, key) == Look(s[1..], key);
    Third(b, c, d, [], key);
  }

  lemma ResultReads(role: string, id: string, text: string)
    ensures ReadBlock(role, ToolResult(id, text)) == [Gave(role, id, text)]
  {
    hide Look;
    NamesDiffer();
    var a, b, c := Field("type", Str("tool_result")), Field("tool_use_id", Str(id)), Field("content", Str(text));
    var ms := ToolResult(id, text).members;
    assert ms == [a] + [b, c] == [a, b] + [c] == [a, b, c] + [];
    First1(a, [b, c]);
    Second(a, b, [c], "tool_use_id");
    Third(a, b, c, [], "content");
  }

  function ReadValues(role: string, vs: seq<Value>): seq<Heard> {
    if vs == [] then [] else ReadBlock(role, vs[0]) + ReadValues(role, vs[1..])
  }

  lemma {:induction false} ItemsRead(role: string, vs: seq<Value>)
    ensures ReadBlocks(role, Items(vs)) == ReadValues(role, vs)
    decreases |vs|
  {
    hide ReadBlock;
    if vs == [] {
      assert Items(vs) == [];
    } else {
      ItemsRead(role, vs[1..]);
      assert Items(vs)[1..] == Items(vs[1..]) && Items(vs)[0].value == vs[0];
    }
  }

  lemma {:induction false} ValuesSum(role: string, a: seq<Value>, b: seq<Value>)
    ensures ReadValues(role, a + b) == ReadValues(role, a) + ReadValues(role, b)
    decreases |a|
  {
    hide ReadBlock;
    if a == [] {
      assert a + b == b;
    } else {
      assert (a + b)[0] == a[0] && (a + b)[1..] == a[1..] + b;
      ValuesSum(role, a[1..], b);
    }
  }

  lemma ValuesOne(role: string, v: Value)
    ensures ReadValues(role, [v]) == ReadBlock(role, v)
  {
    hide ReadBlock;
    assert [v][1..] == [] && ReadBlock(role, v) + [] == ReadBlock(role, v);
  }

  lemma {:induction false} BlocksRead(role: string, parts: seq<Part>)
    ensures ReadValues(role, Blocks(parts)) == SaidAll(role, PartTexts(parts))
    decreases |parts|
  {
    hide ReadBlock, TextBlock;
    if parts != [] {
      var p := parts[0];
      BlocksRead(role, parts[1..]);
      if p.raw == "" {
        assert [] + Blocks(parts[1..]) == Blocks(parts[1..]) && [] + PartTexts(parts[1..]) == PartTexts(parts[1..]);
      } else {
        TextBlockReads(role, p.raw, p.cache);
        ValuesOne(role, TextBlock(p.raw, p.cache));
        ValuesSum(role, [TextBlock(p.raw, p.cache)], Blocks(parts[1..]));
        assert ([p.raw] + PartTexts(parts[1..]))[1..] == PartTexts(parts[1..]);
      }
    }
  }

  lemma {:induction false} CallsRead(calls: seq<Call>)
    ensures ReadValues("assistant", CallBlocks(calls)) == CalledAll(calls)
    decreases |calls|
  {
    hide ReadBlock, ToolUse;
    if calls != [] {
      var c := calls[0];
      CallsRead(calls[1..]);
      if c.name == "" || c.input.None? {
        assert [] + CallBlocks(calls[1..]) == CallBlocks(calls[1..]);
      } else {
        var v := ToolUse(c.id, c.name, c.input.value);
        UseReads("assistant", c.id, c.name, c.input.value);
        ValuesOne("assistant", v);
        ValuesSum("assistant", [v], CallBlocks(calls[1..]));
      }
    }
  }

  lemma CallsTurnReads(m: Message)
    requires CallsTurn(m).Some?
    ensures ReadTurn(CallsTurn(m).value)
            == (if MessageText(m.content) == "" then [] else [Said("assistant", MessageText(m.content))]) + CalledAll(m.calls)
  {
    hide ReadTurn, ReadBlock, TextBlock, Items, Turn, CallBlocks, TextOf, MessageText;
    TextIs(m.content);
    var text := MessageText(m.content);
    var lead, uses := LeadText(text), CallBlocks(m.calls);
    TurnReads(true, Array(lead + uses));
    ItemsRead("assistant", lead + uses);
    ValuesSum("assistant", lead, uses);
    CallsRead(m.calls);
    if text != "" {
      TextBlockReads("assistant", text, NoCache);
      ValuesOne("assistant", TextBlock(text, NoCache));
    }
  }

  lemma TurnOfReads(m: Message)
    requires !m.role.Tool? && !m.role.System? && TurnOf(m).Some?
    ensures ReadTurn(TurnOf(m).value) == Holds(m)
  {
    hide ReadTurn, ReadBlock, TextBlock, Items, Turn, CallBlocks, TextOf, MessageText, CallsTurn, Blocks;
    var role := if m.role.Assistant? then "assistant" else "user";
    if m.role.Assistant? && m.calls != [] {
      CallsTurnReads(m);
    } else {
      TurnReads(m.role.Assistant?, ContentOf(m.content).value);
      TextIs(m.content);
      if Breakpoint(m.content) {
        ItemsRead(role, Blocks(m.content.parts));
        BlocksRead(role, m.content.parts);
      }
    }
  }

  lemma ResultHolds(m: Message)
    requires m.role.Tool? && ResultOf(m).Some?
    ensures ReadBlock("user", ResultOf(m).value) == Holds(m)
  {
    hide ReadBlock, ToolResult, TextOf, MessageText;
    TextIs(m.content);
    ResultReads("user", m.callId, MessageText(m.content));
  }

  lemma {:induction false} ResultsRead(ms: seq<Message>, more: seq<Message>)
    requires forall m <- ms :: m.role.Tool? && Acceptable(m)
    ensures ReadValues("user", ResultValues(ms)) + AllHold(more) == AllHold(ms + more)
    decreases |ms|
  {
    hide ReadBlock, ResultOf, TurnOf, Holds;
    if ms == [] {
      assert ms + more == more;
    } else {
      var m := ms[0];
      assert m in ms && Acceptable(m) && forall x <- ms[1..] :: x in ms;
      var v := ResultOf(m).value;
      ResultsRead(ms[1..], more);
      ResultHolds(m);
      assert (ms + more)[0] == m && (ms + more)[1..] == ms[1..] + more;
      assert ReadValues("user", ResultValues(ms)) == ReadBlock("user", v) + ReadValues("user", ResultValues(ms[1..]));
    }
  }

  /** The first turn: of the results in front, or of the first message. */
  lemma FirstTurn(ms: seq<Message>)
    requires ms != [] && AllAcceptable(ms) && forall m <- ms :: !m.role.System?
    ensures var n := if Results(ms) > 0 then Results(ms) else 1;
            && AllAcceptable(ms[n..]) && Turns(ms) != [] && Turns(ms)[1..] == Turns(ms[n..])
            && ReadTurn(Turns(ms)[0]) + AllHold(ms[n..]) == AllHold(ms)
  {
    hide ReadTurn, TurnOf, Holds, Array, Turn, ResultOf;
    assert ms[0] in ms;
    var n := Results(ms);
    if n > 0 {
      assert forall m <- ms[n..] :: m in ms;
      assert forall m <- ms[..n] :: m in ms && m.role.Tool?;
      var vs := ResultValues(ms[..n]);
      GivenTurn(vs);
      ResultsRead(ms[..n], ms[n..]);
      assert ms == ms[..n] + ms[n..];
    } else {
      assert forall m <- ms[1..] :: m in ms;
      TurnOfReads(ms[0]);
    }
  }

  lemma {:induction false} TurnsRead(ms: seq<Message>)
    requires AllAcceptable(ms) && forall m <- ms :: !m.role.System?
    ensures ReadTurns(Turns(ms)) == AllHold(ms)
    decreases |ms|
  {
    hide ReadTurn, Turns, Holds, AllHold, Acceptable;
    if ms == [] {
      NoTurns();
    } else {
      FirstTurn(ms);
      var n := if Results(ms) > 0 then Results(ms) else 1;
      assert forall m <- ms[n..] :: m in ms;
      TurnsRead(ms[n..]);
    }
  }

  lemma NoTurns()
    ensures Turns([]) == [] && AllHold([]) == []
  {}

  lemma GivenTurn(vs: seq<Value>)
    ensures ReadTurn(Turn(false, Array(vs))) == ReadValues("user", vs)
  {
    hide ReadTurn, Turn, Items;
    TurnReads(false, Array(vs));
    ItemsRead("user", vs);
  }

  lemma {:induction false} SpokenHolds(ms: seq<Message>)
    ensures AllHold(Spoken(ms)) == AllHold(ms) && forall m <- Spoken(ms) :: !m.role.System?
    decreases |ms|
  {
    hide Holds;
    if ms != [] {
      SpokenHolds(ms[1..]);
      if ms[0].role.System? { assert [] + Spoken(ms[1..]) == Spoken(ms[1..]); } else {
        assert ([ms[0]] + Spoken(ms[1..]))[1..] == Spoken(ms[1..]);
      }
    }
  }

  /** For every message list that is not refused: read back, the turns hold every message's role, text,
      calls and results, once and in order. */
  lemma TranslationReads(ms: seq<Message>)
    requires Translation(ms).Some?
    ensures ReadTurns(Translation(ms).value) == AllHold(ms)
  {
    hide Turns, Spoken, Holds;
    SpokenHolds(ms);
    TurnsRead(Spoken(ms));
  }

  /** The system member reads as the system messages' texts, joined by an escaped newline. */
  lemma SystemReads(ms: seq<Message>)
    requires SystemMember(ms).Some? && HasSystem(ms)
    ensures var v := Look(SystemMember(ms).value, "system");
            && SystemTexts(ms).Some? && v.Some?
            && (v.value.Str? ==> v.value.raw == JoinTexts(SystemTexts(ms).value))
            && (v.value.Arr? ==> ReadBlocks("system", v.value.items) == [Said("system", JoinTexts(SystemTexts(ms).value))])
  {
    hide TextBlock, ReadBlock, SystemTexts, JoinTexts, SystemCache, SystemBad, HasSystem;
    var text, cache := JoinTexts(SystemTexts(ms).value), SystemCache(ms, NoCache);
    TextBlockReads("system", text, cache);
    ItemsRead("system", [TextBlock(text, cache)]);
    ValuesOne("system", TextBlock(text, cache));
  }
}
