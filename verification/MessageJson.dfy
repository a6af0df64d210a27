/** What the builder writes is JSON whenever what it was given was. */
module MessageJson {
  import opened Options
  import opened Json
  import opened JsonStrings
  import opened Messages
  import opened MessageBuilder
  import opened MessageRequest

  /** Raw strings that stand between quotes, and values that are JSON. */
  predicate PartOk(p: Part) { StringBody(p.raw) && (p.cache.Cached? ==> ValueOk(p.cache.value)) }

  predicate ContentOk(c: Content) {
    match c
    case Absent => true
    case Flat(raw) => StringBody(raw)
    case Parts(parts) => forall p <- parts :: PartOk(p)
  }

  predicate CallOk(c: Call) { StringBody(c.id) && StringBody(c.name) && (c.input.Some? ==> DocOk(c.input.value)) }

  predicate MessageOk(m: Message) { ContentOk(m.content) && (forall c <- m.calls :: CallOk(c)) && StringBody(m.callId) }

  predicate AllOk(ms: seq<Message>) { forall m <- ms :: MessageOk(m) }

  predicate ValuesOk(vs: seq<Value>) { forall v <- vs :: ValueOk(v) }

  // ---------------------------------------------------------------- strings

  predicate Simple(s: string) { forall k | 0 <= k < |s| :: Plain(s[k]) }

  lemma {:induction false} SimpleBody(s: string)
    requires Simple(s)
    ensures StringBody(s)
    decreases |s|
  {
    if s != "" { SimpleBody(s[1..]); }
  }

  lemma {:induction false} PartsTextOk(parts: seq<Part>)
    requires forall p <- parts :: PartOk(p)
    ensures PartsText(parts).Some? ==> StringBody(PartsText(parts).value)
    decreases |parts|
  {
    hide StringBody;
    if parts != [] {
      assert PartOk(parts[0]);
      PartsTextOk(parts[1..]);
      if PartsText(parts).Some? { BodySum(parts[0].raw, PartsText(parts[1..]).value); }
    } else {
      SimpleBody("");
    }
  }

  lemma TextOk(c: Content)
    requires ContentOk(c)
    ensures TextOf(c).Some? ==> StringBody(TextOf(c).value)
  {
    hide StringBody;
    if c.Parts? { PartsTextOk(c.parts); } else { SimpleBody(""); }
  }

  // ---------------------------------------------------------------- trees

  lemma FieldOk(key: string, v: Value)
    requires Simple(key) && ValueOk(v)
    ensures MemberOk(Field(key, v))
  {
    hide StringBody, ValueOk;
    SimpleBody(key);
  }

  lemma StrOk(s: string)
    requires StringBody(s)
    ensures ValueOk(Str(s))
  {}

  lemma ObjectOk(members: seq<Member>)
    requires forall m <- members :: MemberOk(m)
    ensures ValueOk(Object(members))
  {
    hide MemberOk;
  }

  lemma ArrayOk(vs: seq<Value>)
    requires ValuesOk(vs)
    ensures ValueOk(Array(vs))
  {
    forall it <- Items(vs) ensures ItemOk(it) {
      var k :| 0 <= k < |vs| && Items(vs)[k] == it;
      assert vs[k] in vs;
    }
  }

  lemma WordOk(key: string, word: string)
    requires Simple(key) && Simple(word)
    ensures MemberOk(Field(key, Str(word)))
  {
    hide StringBody, MemberOk;
    SimpleBody(word);
    StrOk(word);
    FieldOk(key, Str(word));
  }

  lemma RawOk(key: string, raw: string)
    requires Simple(key) && StringBody(raw)
    ensures MemberOk(Field(key, Str(raw)))
  {
    hide StringBody, MemberOk;
    StrOk(raw);
    FieldOk(key, Str(raw));
  }

  lemma TurnOk(assistant: bool, content: Value)
    requires ValueOk(content)
    ensures ValueOk(Turn(assistant, content))
  {
    hide MemberOk, ValueOk;
    WordOk("role", "assistant");
    WordOk("role", "user");
    FieldOk("content", content);
    ObjectOk([Field("role", Str(if assistant then "assistant" else "user")), Field("content", content)]);
  }

  lemma TextBlockOk(raw: string, cache: Cache)
    requires StringBody(raw) && (cache.Cached? ==> ValueOk(cache.value))
    ensures ValueOk(TextBlock(raw, cache))
  {
    hide MemberOk, ValueOk, StringBody;
    WordOk("type", "text");
    RawOk("text", raw);
    if cache.Cached? { FieldOk("cache_control", cache.value); }
    ObjectOk([Field("type", Str("text")), Field("text", Str(raw))] +
             if cache.Cached? then [Field("cache_control", cache.value)] else []);
  }

  lemma ToolUseOk(id: string, name: string, input: Doc)
    requires StringBody(id) && StringBody(name) && DocOk(input)
    ensures ValueOk(ToolUse(id, name, input))
  {
    hide ValueOk, StringBody;
    WordOk("type", "tool_use");
    RawOk("id", id);
    RawOk("name", name);
    SimpleBody("input");
    SimpleBody("");
    var m := Member("", "input", "", input.pre, input.value, input.post);
    assert MemberOk(m);
    ObjectOk([Field("type", Str("tool_use")), Field("id", Str(id)), Field("name", Str(name)), m]);
  }

  lemma ToolResultOk(id: string, text: string)
    requires StringBody(id) && StringBody(text)
    ensures ValueOk(ToolResult(id, text))
  {
    hide MemberOk, ValueOk, StringBody;
    WordOk("type", "tool_result");
    RawOk("tool_use_id", id);
    RawOk("content", text);
    ObjectOk([Field("type", Str("tool_result")), Field("tool_use_id", Str(id)), Field("content", Str(text))]);
  }

  lemma {:induction false} BlocksOk(parts: seq<Part>)
    requires forall p <- parts :: PartOk(p)
    ensures ValuesOk(Blocks(parts))
    decreases |parts|
  {
    hide ValueOk, StringBody, TextBlock;
    if parts != [] {
      assert PartOk(parts[0]);
      BlocksOk(parts[1..]);
      TextBlockOk(parts[0].raw, parts[0].cache);
    }
  }

  lemma {:induction false} CallBlocksOk(calls: seq<Call>)
    requires forall c <- calls :: CallOk(c)
    ensures ValuesOk(CallBlocks(calls))
    decreases |calls|
  {
    hide ValueOk, StringBody, ToolUse, DocOk;
    if calls != [] {
      assert CallOk(calls[0]);
      CallBlocksOk(calls[1..]);
      if calls[0].input.Some? { ToolUseOk(calls[0].id, calls[0].name, calls[0].input.value); }
    }
  }

  lemma ContentValueOk(c: Content)
    requires ContentOk(c)
    ensures ContentOf(c).Some? ==> ValueOk(ContentOf(c).value)
  {
    hide ValueOk, StringBody, Blocks, BadCaches, Breakpoint, AllText, Array, TextOf;
    TextOk(c);
    if ContentOf(c).Some? {
      if Breakpoint(c) {
        OnlyParts(c);
        BlocksOk(c.parts);
        ArrayOk(Blocks(c.parts));
      } else {
        StrOk(TextOf(c).value);
      }
    }
  }

  lemma TurnValueOk(m: Message)
    requires MessageOk(m) && TurnOf(m).Some?
    ensures ValueOk(TurnOf(m).value)
  {
    hide ValueOk, StringBody, ContentOf, Array, TextOf, Turn, CallBlocks, CallsOk, TextBlock, ContentOk;
    ContentValueOk(m.content);
    if m.role.Assistant? && m.calls != [] {
      TextOk(m.content);
      var text := TextOf(m.content).value;
      TextBlockOk(text, NoCache);
      CallBlocksOk(m.calls);
      ArrayOk(LeadText(text) + CallBlocks(m.calls));
      TurnOk(true, Array(LeadText(text) + CallBlocks(m.calls)));
    } else {
      TurnOk(m.role.Assistant?, ContentOf(m.content).value);
    }
  }

  lemma {:induction false} ResultValuesOk(ms: seq<Message>)
    requires AllOk(ms) && forall m <- ms :: m.role.Tool? && Acceptable(m)
    ensures ValuesOk(ResultValues(ms))
    decreases |ms|
  {
    hide ValueOk, StringBody, ToolResult, TextOf, ContentOk;
    if ms != [] {
      var m := ms[0];
      assert m in ms && MessageOk(m) && Acceptable(m);
      TextOk(m.content);
      ToolResultOk(m.callId, TextOf(m.content).value);
      ResultValuesOk(ms[1..]);
    }
  }

  lemma {:induction false} TurnsOk(ms: seq<Message>)
    requires AllOk(ms) && AllAcceptable(ms)
    ensures ValuesOk(Turns(ms))
    decreases |ms|
  {
    hide ValueOk, TurnOf, ResultOf, Turn, Array, MessageOk, ResultValues;
    if ms != [] {
      var n := Results(ms);
      assert ms[0] in ms;
      if n > 0 {
        ResultValuesOk(ms[..n]);
        ArrayOk(ResultValues(ms[..n]));
        TurnOk(false, Array(ResultValues(ms[..n])));
        TurnsOk(ms[n..]);
      } else {
        TurnValueOk(ms[0]);
        TurnsOk(ms[1..]);
      }
    }
  }

  lemma {:induction false} SpokenOk(ms: seq<Message>)
    requires AllOk(ms)
    ensures AllOk(Spoken(ms))
    decreases |ms|
  {
    hide MessageOk;
    if ms != [] { SpokenOk(ms[1..]); }
  }

  lemma {:induction false} JoinTextsOk(texts: seq<string>)
    requires forall t <- texts :: StringBody(t)
    ensures StringBody(JoinTexts(texts))
    decreases |texts|
  {
    hide StringBody;
    SimpleBody("");
    if |texts| > 1 {
      JoinTextsOk(texts[1..]);
      assert StringBody("\\n") by { NewlineOk(); }
      BodySum(texts[0], "\\n");
      BodySum(texts[0] + "\\n", JoinTexts(texts[1..]));
    }
  }

  lemma NewlineOk()
    ensures StringBody("\\n")
  {
    assert "\\n"[2..] == "";
  }

  lemma {:induction false} SystemTextsOk(ms: seq<Message>)
    requires AllOk(ms)
    ensures SystemTexts(ms).Some? ==> forall t <- SystemTexts(ms).value :: StringBody(t)
    decreases |ms|
  {
    hide StringBody, TextOf, ContentOk;
    if ms != [] {
      assert MessageOk(ms[0]);
      TextOk(ms[0].content);
      SystemTextsOk(ms[1..]);
    }
  }

  predicate CacheOk(c: Cache) { c.Cached? ==> ValueOk(c.value) }

  lemma {:induction false} LastCacheOk(parts: seq<Part>, before: Cache)
    requires CacheOk(before) && forall p <- parts :: PartOk(p)
    ensures CacheOk(LastCache(parts, before))
    decreases |parts|
  {
    hide ValueOk, StringBody;
    if parts != [] {
      assert PartOk(parts[|parts| - 1]);
      LastCacheOk(parts[..|parts| - 1], before);
    }
  }

  lemma {:induction false} SystemCacheOk(ms: seq<Message>, before: Cache)
    requires AllOk(ms) && CacheOk(before)
    ensures CacheOk(SystemCache(ms, before))
    decreases |ms|
  {
    hide CacheOk, LastCache;
    if ms != [] {
      assert MessageOk(ms[0]);
      if ms[0].content.Parts? { LastCacheOk(ms[0].content.parts, before); }
      SystemCacheOk(ms[1..], if ms[0].role.System? && ms[0].content.Parts? then LastCache(ms[0].content.parts, before) else before);
    }
  }

  lemma SystemMemberOk(ms: seq<Message>)
    requires AllOk(ms) && SystemMember(ms).Some?
    ensures forall m <- SystemMember(ms).value :: MemberOk(m)
  {
    hide ValueOk, StringBody, MemberOk, SystemTexts, JoinTexts, SystemCache, SystemBad, HasSystem, TextBlock, Array;
    if HasSystem(ms) {
      var text, cache := JoinTexts(SystemTexts(ms).value), SystemCache(ms, NoCache);
      SystemTextsOk(ms);
      JoinTextsOk(SystemTexts(ms).value);
      SystemCacheOk(ms, NoCache);
      TextBlockOk(text, cache);
      ArrayOk([TextBlock(text, cache)]);
      StrOk(text);
      FieldOk("system", if cache.Cached? then Array([TextBlock(text, cache)]) else Str(text));
    }
  }

  /** A request that is not refused is one JSON object. */
  lemma RequestIsJson(first: Member, limit: Member, params: seq<Member>, ms: seq<Message>)
    requires MemberOk(first) && MemberOk(limit) && (forall p <- params :: MemberOk(p)) && AllOk(ms)
    requires Request(first, limit, params, ms).Some?
    ensures ValueOk(Request(first, limit, params, ms).value)
  {
    hide ValueOk, MemberOk, SystemMember, Turns, AllAcceptable, Spoken, Array;
    SpokenOk(ms);
    TurnsOk(Spoken(ms));
    ArrayOk(Turns(Spoken(ms)));
    FieldOk("messages", Array(Turns(Spoken(ms))));
    SystemMemberOk(ms);
    var all := [first, limit] + SystemMember(ms).value + params + [Field("messages", Array(Turns(Spoken(ms))))];
    ObjectOk(all);
  }
}
