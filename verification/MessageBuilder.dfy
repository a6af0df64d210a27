/** The builder that writes the translated messages front to back into one string
    (`AnthropicTurns` and its helpers in provider/src/translate_anthropic.cpp).
 */
module MessageBuilder {
  import opened Options
  import opened Json
  import opened Messages
  import opened MessageText

  // ---------------------------------------------------------------- contents

  lemma TextNext(parts: seq<Part>, k: nat)
    requires k < |parts|
    ensures var t := PartsText(parts[k + 1..]);
            PartsText(parts[k..]) == if !parts[k].text || t.None? then None else Some(parts[k].raw + t.value)
  {
    assert parts[k..][1..] == parts[k + 1..];
  }

  /** `append_text`: the text of a content field, unquoted. */
  method AppendText(out0: string, c: Content) returns (ok: bool, out: string)
    ensures ok <==> TextOf(c).Some?
    ensures ok ==> out == out0 + TextOf(c).value
  {
    hide PartsText;
    ok, out := true, out0;
    if c.Absent? { return; }
    if c.Flat? {
      out := out + c.raw;
      return;
    }
    assert c.parts[0..] == c.parts;
    for k := 0 to |c.parts|
      invariant PartsText(c.parts).Some? <==> PartsText(c.parts[k..]).Some?
      invariant PartsText(c.parts).Some? ==> out0 + PartsText(c.parts).value == out + PartsText(c.parts[k..]).value
    {
      TextNext(c.parts, k);
      if !c.parts[k].text { return false, out; }
      if PartsText(c.parts[k + 1..]).Some? {
        assert out + (c.parts[k].raw + PartsText(c.parts[k + 1..]).value) == out + c.parts[k].raw + PartsText(c.parts[k + 1..]).value;
      }
      out := out + c.parts[k].raw;
    }
    assert PartsText([]) == Some("") by { NoParts(); }
    assert c.parts[|c.parts|..] == [];
  }

  lemma NoParts()
    ensures PartsText([]) == Some("")
  {}

  /** `content_cache_state`: refused, or whether a part with text carries a breakpoint. */
  method CacheState(c: Content) returns (ok: bool, any: bool)
    ensures ok <==> !BadCaches(c)
    ensures ok ==> (any <==> Breakpoint(c))
  {
    ok, any := true, false;
    if !c.Parts? { return; }
    for k := 0 to |c.parts|
      invariant forall j | 0 <= j < k :: !c.parts[j].cache.BadCache?
      invariant any <==> exists j | 0 <= j < k :: c.parts[j].cache.Cached? && c.parts[j].raw != ""
    {
      var p := c.parts[k];
      if p.cache.BadCache? {
        assert p in c.parts;
        return false, any;
      }
      if p.cache.Cached? && p.raw != "" { any := true; }
    }
    if any {
      var j :| 0 <= j < |c.parts| && c.parts[j].cache.Cached? && c.parts[j].raw != "";
      assert c.parts[j] in c.parts;
    }
  }

  lemma BlocksNext(parts: seq<Part>, k: nat)
    requires k < |parts|
    ensures Blocks(parts[..k + 1]) == Blocks(parts[..k]) + BlockOf(parts[k])
  {
    hide TextBlock;
    BlocksMore(parts[..k], parts[k]);
    assert parts[..k + 1] == parts[..k] + [parts[k]];
  }

  function BlockOf(p: Part): seq<Value> { if p.raw == "" then [] else [TextBlock(p.raw, p.cache)] }

  lemma BlocksFirst(parts: seq<Part>)
    requires parts != []
    ensures Blocks(parts) == BlockOf(parts[0]) + Blocks(parts[1..])
  {
    hide TextBlock;
  }

  lemma {:induction false} BlocksMore(parts: seq<Part>, p: Part)
    ensures Blocks(parts + [p]) == Blocks(parts) + BlockOf(p)
    decreases |parts|
  {
    hide Blocks, BlockOf;
    BlocksFirst(parts + [p]);
    NoBlocks();
    if parts == [] {
      assert (parts + [p])[1..] == [];
    } else {
      assert (parts + [p])[1..] == parts[1..] + [p];
      BlocksMore(parts[1..], p);
      BlocksFirst(parts);
    }
  }

  /** One value more in a list being written. */
  lemma WriteNext(before: string, vs: seq<Value>, v: Value)
    ensures before + Joined(vs + [v]) == before + Joined(vs) + (if vs == [] then "" else ",") + Text(v)
  {
    hide Text, Joined;
    JoinedMore(vs, v);
    if vs == [] {
      assert Joined([]) == "" by { NoneJoined(); }
    } else {
      assert before + (Joined(vs) + "," + Text(v)) == before + Joined(vs) + "," + Text(v);
    }
  }

  lemma NoneJoined()
    ensures Joined([]) == ""
  {}

  /** A text block, in the order the builder appends it. */
  method AppendTextBlock(out0: string, raw: string, cache: Cache) returns (out: string)
    ensures out == out0 + Text(TextBlock(raw, cache))
  {
    hide Text, TextBlock, Quote, Key, Head;
    TextBlockText(raw, cache);
    out := out0 + TextHead();
    out := out + Quote(raw);
    if cache.Cached? { out := out + ("," + (Key("cache_control") + Text(cache.value))); }
    BlockJoin(out0, TextHead(), Quote(raw), CacheText(cache));
    out := out + "}";
  }

  lemma BlockJoin(a: string, b: string, c: string, d: string)
    ensures a + (b + c + d + "}") == a + b + c + d + "}" && a + b + c + "" == a + b + c
  {}

  /** The block form: one for each part with text. */
  method AppendBlocks(out0: string, parts: seq<Part>) returns (ok: bool, out: string)
    ensures ok <==> AllText(parts)
    ensures ok ==> out == out0 + Text(Array(Blocks(parts)))
  {
    hide Text, TextBlock, Joined, Blocks;
    out := out0 + "[";
    var first := true;
    ghost var done: seq<Value> := [];
    assert parts[..0] == [];
    assert Blocks([]) == [] by { NoBlocks(); }
    NoneJoined();
    for k := 0 to |parts|
      invariant forall j | 0 <= j < k :: parts[j].text
      invariant done == Blocks(parts[..k]) && (first <==> done == []) && out == out0 + "[" + Joined(done)
    {
      var p := parts[k];
      BlocksNext(parts, k);
      if !p.text {
        assert p in parts;
        return false, out;
      }
      if p.raw != "" {
        WriteNext(out0 + "[", done, TextBlock(p.raw, p.cache));
        if !first { out := out + ","; }
        first := false;
        out := AppendTextBlock(out, p.raw, p.cache);
        done := done + [TextBlock(p.raw, p.cache)];
      }
    }
    assert parts[..|parts|] == parts;
    ArrayText(done);
    ListJoin(out0, Joined(done));
    out := out + "]";
    ok := true;
  }

  lemma NoBlocks()
    ensures Blocks([]) == []
  {}

  lemma ListJoin(a: string, b: string)
    ensures a + ("[" + b + "]") == a + "[" + b + "]"
  {}

  /** `append_content`: a turn's content, in whichever of the two shapes it needs. */
  method AppendContent(out0: string, c: Content) returns (ok: bool, out: string)
    ensures ok <==> ContentOf(c).Some?
    ensures ok ==> out == out0 + Text(ContentOf(c).value)
  {
    hide Text, Blocks, PartsText, BadCaches, Breakpoint, AllText;
    out := out0;
    var cached;
    ok, cached := CacheState(c);
    if !ok { return; }
    if cached {
      assert c.Parts? by { OnlyParts(c); }
      ok, out := AppendBlocks(out, c.parts);
      return;
    }
    ok, out := AppendText(out + "\"", c);
    if !ok { return; }
    StrText(TextOf(c).value);
    QuoteJoin(out0, TextOf(c).value);
    out := out + "\"";
  }

  lemma OnlyParts(c: Content)
    requires Breakpoint(c)
    ensures c.Parts?
  {}

  lemma QuoteJoin(a: string, s: string)
    ensures a + Quote(s) == a + "\"" + s + "\""
  {}

  // ---------------------------------------------------------------- calls

  lemma CallsNext(calls: seq<Call>, k: nat)
    requires k < |calls|
    ensures var c := calls[k];
            CallBlocks(calls[..k + 1])
            == CallBlocks(calls[..k]) + if c.name == "" || c.input.None? then [] else [ToolUse(c.id, c.name, c.input.value)]
  {
    hide ToolUse;
    CallsMore(calls[..k], calls[k]);
    assert calls[..k + 1] == calls[..k] + [calls[k]];
  }

  lemma {:induction false} CallsMore(calls: seq<Call>, c: Call)
    ensures CallBlocks(calls + [c])
            == CallBlocks(calls) + if c.name == "" || c.input.None? then [] else [ToolUse(c.id, c.name, c.input.value)]
    decreases |calls|
  {
    hide ToolUse;
    if calls == [] {
      assert calls + [c] == [c];
      assert [c][1..] == [];
    } else {
      assert (calls + [c])[1..] == calls[1..] + [c];
      CallsMore(calls[1..], c);
    }
  }

  method AppendToolUse(out0: string, id: string, name: string, input: Doc) returns (out: string)
    ensures out == out0 + Text(ToolUse(id, name, input))
  {
    hide Text, ToolUse, Quote, Key, Head, DocText;
    ToolUseText(id, name, input);
    out := out0 + UseHead();
    out := out + Quote(id);
    out := out + ("," + (Key("name") + Quote(name)));
    out := out + ("," + (Key("input") + DocText(input)));
    UseJoin(out0, UseHead(), Quote(id), "," + (Key("name") + Quote(name)), "," + (Key("input") + DocText(input)));
    out := out + "}";
  }

  lemma UseJoin(a: string, b: string, c: string, d: string, e: string)
    ensures a + (b + c + d + e + "}") == a + b + c + d + e + "}"
  {}

  /** The named calls' blocks, after those already in the list `done`. */
  method AppendCalls(out0: string, calls: seq<Call>, ghost before: string, ghost done: seq<Value>, any0: bool)
      returns (ok: bool, out: string)
    requires out0 == before + Joined(done) && (any0 <==> done != [])
    ensures ok <==> CallsOk(calls)
    ensures ok ==> out == before + Joined(done + CallBlocks(calls))
  {
    hide Text, ToolUse, Joined, CallBlocks;
    ok, out := true, out0;
    var any := any0;
    ghost var all := done;
    assert calls[..0] == [] && CallBlocks([]) == [] by { NoCalls(); }
    assert done + [] == done;
    for k := 0 to |calls|
      invariant forall j | 0 <= j < k :: calls[j].name != "" ==> calls[j].input.Some?
      invariant all == done + CallBlocks(calls[..k]) && out == before + Joined(all) && (any <==> all != [])
    {
      var c := calls[k];
      CallsNext(calls, k);
      if c.name != "" {
        if c.input.None? {
          assert c in calls;
          return false, out;
        }
        ghost var v := ToolUse(c.id, c.name, c.input.value);
        WriteNext(before, all, v);
        assert done + CallBlocks(calls[..k + 1]) == all + [v];
        if any { out := out + ","; }
        any := true;
        out := AppendToolUse(out, c.id, c.name, c.input.value);
        all := all + [v];
      }
    }
    assert calls[..|calls|] == calls;
  }

  lemma NoCalls()
    ensures CallBlocks([]) == []
  {}

  // ---------------------------------------------------------------- the turns

  function Comma(vs: seq<Value>): string { if vs == [] then "" else "," }

  /** What has been written: turns closed, and the results of one still open. */
  function Sofar(done: seq<Value>, open: seq<Value>): string {
    Joined(done) + if open == [] then "" else Comma(done) + TurnHead(false) + "[" + Joined(open)
  }

  function Closed(done: seq<Value>, open: seq<Value>): seq<Value> {
    if open == [] then done else done + [Turn(false, Array(open))]
  }

  lemma ClosedText(done: seq<Value>, open: seq<Value>)
    ensures Joined(Closed(done, open)) == Sofar(done, open) + if open == [] then "" else "]}"
  {
    hide Text, Joined, TurnHead, Turn, Array;
    if open == [] {
      assert Joined(done) + "" + "" == Joined(done);
    } else {
      var t := Turn(false, Array(open));
      WriteNext("", done, t);
      assert "" + Joined(done + [t]) == Joined(done + [t]) && "" + Joined(done) == Joined(done);
      TurnText(false, Array(open));
      ArrayText(open);
      CloseJoin(Joined(done), Comma(done), TurnHead(false), Joined(open));
    }
  }

  lemma CloseJoin(a: string, b: string, c: string, d: string)
    ensures a + b + (c + ("[" + d + "]") + "}") == a + (b + c + "[" + d) + "]}"
  {
    assert "]" + "}" == "]}";
  }

  class AnthropicTurns {
    var out: string
    var first: bool
    var inResults: bool
    ghost var base: string        // what was written before the turns
    ghost var done: seq<Value>
    ghost var open: seq<Value>

    ghost predicate Valid()
      reads this
    {
      && out == base + Sofar(done, open)
      && (first <==> done == [] && open == []) && (inResults <==> open != [])
    }

    constructor (out: string)
      ensures Valid() && base == out && done == [] && open == []
    {
      this.out, first, inResults, base, done, open := out, true, false, out, [], [];
    }

    method CloseResults()
      requires Valid()
      modifies this`out, this`inResults, this`done, this`open
      ensures Valid() && done == Closed(old(done), old(open)) && open == [] && out == base + Joined(done)
    {
      hide Joined, TurnHead, Turn, Array;
      ClosedText(done, open);
      assert base + Sofar(done, open) + "]}" == base + (Sofar(done, open) + "]}");
      if inResults { out := out + "]}"; }
      inResults := false;
      done, open := Closed(done, open), [];
      assert Joined(done) + "" == Joined(done);
    }

    /** A turn's head, after a comma if one went before. */
    method Open(head: string)
      requires Valid()
      modifies this`out, this`inResults, this`done, this`open, this`first
      ensures done == Closed(old(done), old(open)) && open == [] && !inResults && !first
      ensures out == base + Joined(done) + Comma(done) + head
    {
      hide Joined, TurnHead, Turn, Array;
      CloseResults();
      if !first { out := out + ","; }
      first := false;
      assert done == [] ==> base + Joined(done) + "" == base + Joined(done);
      out := out + head;
    }

    /** A user or assistant turn of plain content. */
    method PlainTurn(assistant: bool, content: Content) returns (ok: bool)
      requires Valid()
      modifies this`out, this`inResults, this`done, this`open, this`first
      ensures ok <==> ContentOf(content).Some?
      ensures ok ==> Valid() && open == [] && done == Closed(old(done), old(open)) + [Turn(assistant, ContentOf(content).value)]
    {
      hide Joined, TurnHead, Turn, Array, Text, ContentOf;
      Open(TurnHead(assistant));
      ghost var before := out;
      ok, out := AppendContent(out, content);
      if !ok { return; }
      ghost var v := ContentOf(content).value;
      TurnText(assistant, v);
      WriteNext(base, done, Turn(assistant, v));
      TurnJoin(base + Joined(done) + Comma(done), TurnHead(assistant), Text(v));
      out := out + "}";
      done := done + [Turn(assistant, v)];
      assert Joined(done) + "" == Joined(done);
    }

    /** A tool's result, in the turn of the results before it if one is open. */
    method ToolResultTurn(m: Message) returns (ok: bool)
      requires Valid()
      modifies this`out, this`inResults, this`done, this`open, this`first
      ensures ok <==> ResultOf(m).Some?
      ensures ok ==> Valid() && open == old(open) + [ResultOf(m).value] && done == old(done)
    {
      hide Joined, TurnHead, Turn, Array, Text, TextOf;
      ghost var d, o := done, open;
      if inResults {
        out := out + ",";
      } else {
        Open(TurnHead(false) + "[");
        assert done == d;
      }
      inResults := true;
      ghost var before := out;
      OpenResults(base, d, o);
      out := out + ResultHead() + Quote(m.callId) + ("," + Key("content")) + "\"";
      ok, out := AppendText(out, m.content);
      if !ok { return; }
      ghost var v, text := ResultOf(m).value, TextOf(m.content).value;
      ToolResultText(m.callId, text);
      ResultJoin(before, ResultHead(), Quote(m.callId), Key("content"), text);
      out := out + "\"}";
      assert out == before + Text(v);
      WriteNext(base + Joined(d) + Comma(d) + TurnHead(false) + "[", o, v);
      SofarIs(base, d, o + [v]);
      open := open + [v];
    }

    /** An assistant's calls, after its text if it has any. */
    method CallsTurnOf(m: Message) returns (ok: bool)
      requires Valid()
      modifies this`out, this`inResults, this`done, this`open, this`first
      ensures ok <==> CallsTurn(m).Some?
      ensures ok ==> Valid() && open == [] && done == Closed(old(done), old(open)) + [CallsTurn(m).value]
    {
      hide Joined, TurnHead, Turn, Array, Text, TextOf, CallsOk, CallBlocks, LeadText;
      Open(TurnHead(true) + "[");
      ghost var before := out;
      var any;
      ok, out, any := AppendLead(out, m.content);
      if !ok { return; }
      ghost var lead := LeadText(TextOf(m.content).value);
      ok, out := AppendCalls(out, m.calls, before, lead, any);
      if !ok { return; }
      ghost var blocks := lead + CallBlocks(m.calls);
      ghost var v := Turn(true, Array(blocks));
      CallsWritten(base, done, blocks);
      out := out + "]}";
      done := done + [v];
      assert Joined(done) + "" == Joined(done);
    }

    /** One message, by its role. */
    method Visit(m: Message) returns (ok: bool)
      requires Valid()
      modifies this`out, this`inResults, this`done, this`open, this`first
      ensures ok <==> m.role.System? || Acceptable(m)
      ensures ok ==> Valid()
      ensures ok && m.role.System? ==> done == old(done) && open == old(open)
      ensures ok && m.role.Tool? ==> done == old(done) && open == old(open) + [ResultOf(m).value]
      ensures ok && !m.role.System? && !m.role.Tool? ==> open == [] && done == Closed(old(done), old(open)) + [TurnOf(m).value]
    {
      hide Joined, TurnHead, Turn, Array, Text, ContentOf, CallsTurn, ResultOf, Closed, Sofar;
      if m.role.System? { return true; }
      if m.role.User? {
        ok := PlainTurn(false, m.content);
      } else if m.role.Assistant? && m.calls != [] {
        ok := CallsTurnOf(m);
      } else if m.role.Assistant? {
        ok := PlainTurn(true, m.content);
      } else if m.role.Tool? {
        ok := ToolResultTurn(m);
      } else {
        ok := false;
      }
    }

    /** `walk_messages`: every message in order, or a refusal. */
    method Walk(ms: seq<Message>) returns (ok: bool)
      requires Valid() && done == [] && open == []
      modifies this
      ensures ok <==> Translation(ms).Some?
      ensures ok ==> Valid() && Closed(done, open) == Translation(ms).value && base == old(base)
    {
      hide Acceptable, TurnOf, ResultOf, Closed, Turns, Sofar;
      assert ms[0..] == ms;
      AfterNone(Spoken(ms));
      for k := 0 to |ms|
        invariant Valid() && base == old(base)
        invariant AllAcceptable(Spoken(ms)) <==> AllAcceptable(Spoken(ms[k..]))
        invariant AllAcceptable(Spoken(ms)) ==> TurnsAfter(done, open, Spoken(ms[k..])) == Turns(Spoken(ms))
      {
        SpokenNext(ms, k);
        ghost var rest := Spoken(ms[k + 1..]);
        ghost var d, o := done, open;
        if ms[k].role.System? {
          ok := Visit(ms[k]);
        } else {
          FirstAcceptable(ms[k], rest);
          ok := Visit(ms[k]);
          if !ok { return; }
          if AllAcceptable(rest) { StepAfter(d, o, ms[k], rest); }
        }
      }
      assert ms[|ms|..] == [];
      AfterAll(done, open);
      ok := true;
    }
  }

  /** A text block, taken back when there is no text. */
  method AppendLead(out0: string, c: Content) returns (ok: bool, out: string, any: bool)
    ensures ok <==> TextOf(c).Some?
    ensures ok ==> out == out0 + Joined(LeadText(TextOf(c).value)) && (any <==> LeadText(TextOf(c).value) != [])
  {
    hide Joined, Text, TextOf, TextBlock, Quote, LeadText;
    out := out0 + TextHead() + "\"";
    var textAt := |out|;
    any := false;
    ok, out := AppendText(out, c);
    if !ok { return; }
    LeadWritten(out0, TextOf(c).value);
    any := |out| != textAt;
    if any { out := out + "\"}"; } else { out := out0; }
  }

  /** A turn of blocks, after the turns before it. */
  lemma CallsWritten(base: string, done: seq<Value>, blocks: seq<Value>)
    ensures base + Joined(done + [Turn(true, Array(blocks))])
            == base + Joined(done) + Comma(done) + (TurnHead(true) + "[") + Joined(blocks) + "]}"
  {
    hide Joined, TurnHead, Turn, Array, Text;
    TurnText(true, Array(blocks));
    ArrayText(blocks);
    WriteNext(base, done, Turn(true, Array(blocks)));
    CallsJoin(base + Joined(done) + Comma(done), TurnHead(true), Joined(blocks));
  }

  lemma LeadWritten(before: string, text: string)
    ensures LeadText(text) == [] <==> text == ""
    ensures text == "" ==> before + Joined(LeadText(text)) == before
    ensures before + TextHead() + "\"" + text + "\"}" == before + Text(TextBlock(text, NoCache))
    ensures text != "" ==> Joined(LeadText(text)) == Text(TextBlock(text, NoCache))
  {
    hide Text, TextBlock;
    TextBlockText(text, NoCache);
    NoneJoined();
    LeadJoin(before, TextHead(), text);
  }

  lemma LeadJoin(before: string, head: string, text: string)
    ensures before + head + "\"" + text + "\"}" == before + (head + Quote(text) + "" + "}")
    ensures before + "" == before
  {
    assert "\"" + "}" == "\"}";
  }

  lemma CallsJoin(a: string, head: string, blocks: string)
    ensures a + (head + ("[" + blocks + "]") + "}") == a + (head + "[") + blocks + "]}"
  {
    assert "]" + "}" == "]}";
  }

  // ---------------------------------------------------------------- what the walk has left

  /** The turns in all, once `ms` follow what was written. */
  function TurnsAfter(done: seq<Value>, open: seq<Value>, ms: seq<Message>): seq<Value>
    requires AllAcceptable(ms)
  {
    if open == [] then done + Turns(ms)
    else
      var n := Results(ms);
      done + [Turn(false, Array(open + ResultValues(ms[..n])))] + Turns(ms[n..])
  }

  lemma AfterNone(ms: seq<Message>)
    ensures AllAcceptable(ms) ==> TurnsAfter([], [], ms) == Turns(ms)
  {
    hide Turns;
  }

  lemma AfterAll(done: seq<Value>, open: seq<Value>)
    ensures AllAcceptable([]) && TurnsAfter(done, open, []) == Closed(done, open)
  {
    hide Turn, Array;
    assert open + ResultValues([]) == open;
    assert done + [] == done;
  }

  lemma SpokenNext(ms: seq<Message>, k: nat)
    requires k < |ms|
    ensures Spoken(ms[k..]) == if ms[k].role.System? then Spoken(ms[k + 1..]) else [ms[k]] + Spoken(ms[k + 1..])
  {
    assert ms[k..][1..] == ms[k + 1..];
  }

  lemma FirstAcceptable(m: Message, rest: seq<Message>)
    ensures AllAcceptable([m] + rest) <==> Acceptable(m) && AllAcceptable(rest)
  {
    hide Acceptable;
    assert m in [m] + rest;
    assert forall x <- rest :: x in [m] + rest;
  }

  lemma StepAfter(done: seq<Value>, open: seq<Value>, m: Message, rest: seq<Message>)
    requires Acceptable(m) && AllAcceptable(rest) && AllAcceptable([m] + rest) && !m.role.System?
    ensures TurnsAfter(done, open, [m] + rest)
            == if m.role.Tool? then TurnsAfter(done, open + [ResultOf(m).value], rest)
               else TurnsAfter(Closed(done, open) + [TurnOf(m).value], [], rest)
  {
    hide TurnsAfter, Closed, TurnOf, ResultOf;
    if m.role.Tool? { StepResult(done, open, m, rest); } else { StepTurn(done, open, m, rest); }
  }

  lemma StepTurn(done: seq<Value>, open: seq<Value>, m: Message, rest: seq<Message>)
    requires Acceptable(m) && AllAcceptable(rest) && AllAcceptable([m] + rest) && !m.role.System? && !m.role.Tool?
    ensures TurnsAfter(done, open, [m] + rest) == TurnsAfter(Closed(done, open) + [TurnOf(m).value], [], rest)
  {
    hide Turn, Array, TurnOf, Acceptable, ResultOf;
    var ms := [m] + rest;
    assert ms[1..] == rest;
    assert Results(ms) == 0 && ms[..0] == [] && ms[0..] == ms;
    assert open + ResultValues([]) == open;
    assert TurnOf(m).Some? by { TurnThere(m); }
    assert Turns(ms) == [TurnOf(m).value] + Turns(rest);
  }

  lemma TurnThere(m: Message)
    requires Acceptable(m) && !m.role.Tool?
    ensures TurnOf(m).Some?
  {}

  lemma StepResult(done: seq<Value>, open: seq<Value>, m: Message, rest: seq<Message>)
    requires Acceptable(m) && AllAcceptable(rest) && AllAcceptable([m] + rest) && m.role.Tool?
    ensures TurnsAfter(done, open, [m] + rest) == TurnsAfter(done, open + [ResultOf(m).value], rest)
  {
    hide Turn, Array, TurnOf, ResultOf, Turns;
    var ms, n := [m] + rest, Results(rest);
    assert ms[1..] == rest;
    assert Results(ms) == n + 1;
    assert ms[..n + 1] == [m] + rest[..n] && ms[n + 1..] == rest[n..];
    ResultsFirst(m, rest[..n]);
    var v := ResultOf(m).value;
    assert open + [v] + ResultValues(rest[..n]) == open + ResultValues(ms[..n + 1]);
    if open == [] {
      assert [] + ResultValues(ms[..n + 1]) == ResultValues(ms[..n + 1]);
      TurnsResults(ms);
      assert done + ([Turn(false, Array(ResultValues(ms[..n + 1])))] + Turns(ms[n + 1..]))
          == done + [Turn(false, Array(ResultValues(ms[..n + 1])))] + Turns(ms[n + 1..]);
    }
  }

  lemma TurnsResults(ms: seq<Message>)
    requires AllAcceptable(ms) && ms != [] && ms[0].role.Tool?
    ensures var n := Results(ms); n > 0 && Turns(ms) == [Turn(false, Array(ResultValues(ms[..n])))] + Turns(ms[n..])
  {
    hide Turn, Array, TurnOf, ResultOf, Acceptable;
  }

  lemma ResultsFirst(m: Message, rest: seq<Message>)
    requires m.role.Tool? && Acceptable(m) && forall x <- rest :: x.role.Tool? && Acceptable(x)
    ensures (forall x <- [m] + rest :: x.role.Tool? && Acceptable(x)) && ResultValues([m] + rest) == [ResultOf(m).value] + ResultValues(rest)
  {
    assert ([m] + rest)[1..] == rest;
  }

  lemma TurnJoin(a: string, b: string, c: string)
    ensures a + (b + c + "}") == a + b + c + "}"
  {}

  lemma SofarIs(base: string, done: seq<Value>, open: seq<Value>)
    requires open != []
    ensures base + Sofar(done, open) == base + Joined(done) + Comma(done) + TurnHead(false) + "[" + Joined(open)
  {
    hide Joined, TurnHead;
  }

  /** What is written before the next result. */
  lemma OpenResults(base: string, done: seq<Value>, open: seq<Value>)
    ensures var head := base + Joined(done) + Comma(done) + TurnHead(false) + "[";
            && (open != [] ==> base + Sofar(done, open) + "," == head + Joined(open) + ",")
            && (open == [] ==> base + Joined(done) + Comma(done) + (TurnHead(false) + "[") == head + Joined(open) + "")
  {
    hide Joined, TurnHead;
    if open != [] { SofarIs(base, done, open); } else { NoneJoined(); }
  }

  lemma ResultJoin(before: string, head: string, id: string, key: string, text: string)
    ensures before + (head + id + ("," + (key + Quote(text))) + "}") == before + head + id + ("," + key) + "\"" + text + "\"}"
  {
    assert "\"" + "}" == "\"}";
  }
}
