/** The text of the small trees the builder writes, as the builder spells it. */
module MessageText {
  import opened Json
  import opened Messages

  /** Values with commas between them. */
  function Joined(vs: seq<Value>): string {
    if vs == [] then "" else if |vs| == 1 then Text(vs[0]) else Text(vs[0]) + "," + Joined(vs[1..])
  }

  lemma {:induction false} JoinedMore(vs: seq<Value>, v: Value)
    ensures Joined(vs + [v]) == if vs == [] then Text(v) else Joined(vs) + "," + Text(v)
    decreases |vs|
  {
    hide Text;
    if vs == [] {
      assert vs + [v] == [v];
    } else {
      assert (vs + [v])[1..] == vs[1..] + [v];
      JoinedMore(vs[1..], v);
      if |vs| > 1 {
        assert Text(vs[0]) + "," + (Joined(vs[1..]) + "," + Text(v)) == Text(vs[0]) + "," + Joined(vs[1..]) + "," + Text(v);
      }
    }
  }

  lemma {:induction false} ItemsJoined(vs: seq<Value>)
    requires vs != []
    ensures Items(vs) != [] && ItemsText(Items(vs)) == Joined(vs)
    decreases |vs|
  {
    hide Text;
    var its := Items(vs);
    assert ItemText(its[0]) == Text(vs[0]);
    if |vs| > 1 {
      assert its[1..] == Items(vs[1..]);
      ItemsJoined(vs[1..]);
    }
  }

  lemma ArrayText(vs: seq<Value>)
    ensures Text(Array(vs)) == "[" + Joined(vs) + "]"
  {
    hide ItemsText;
    if vs != [] { ItemsJoined(vs); }
  }

  // ---------------------------------------------------------------- objects

  function Quote(s: string): string { "\"" + s + "\"" }

  /** A key and its colon. */
  function Key(k: string): string { "\"" + k + "\":" }

  lemma KeyText(key: string, v: Value)
    ensures MemberText(Field(key, v)) == Key(key) + Text(v)
  {
    hide Text;
    var m := Field(key, v);
    assert MemberHead(m) == "\"" + key + "\":";
  }

  lemma StrText(raw: string)
    ensures Text(Str(raw)) == Quote(raw)
  {}

  lemma TwoFields(a: Member, b: Member)
    ensures Text(Object([a, b])) == "{" + MemberText(a) + "," + MemberText(b) + "}"
  {
    hide MemberText;
    assert [a, b][1..] == [b];
    assert MembersText([b]) == MemberText(b);
    assert MembersText([a, b]) == MemberText(a) + "," + MembersText([b]);
    Commas2(MemberText(a), MemberText(b));
  }

  lemma Commas2(a: string, b: string)
    ensures "{" + (a + "," + b) + "}" == "{" + a + "," + b + "}"
  {}

  lemma ThreeFields(a: Member, b: Member, c: Member)
    ensures Text(Object([a, b, c])) == "{" + MemberText(a) + "," + MemberText(b) + "," + MemberText(c) + "}"
  {
    hide MemberText;
    assert [a, b, c][1..] == [b, c] && [b, c][1..] == [c];
    assert MembersText([b, c]) == MemberText(b) + "," + MemberText(c);
    assert MembersText([a, b, c]) == MemberText(a) + "," + MembersText([b, c]);
    Commas3(MemberText(a), MemberText(b), MemberText(c));
  }

  lemma Commas3(a: string, b: string, c: string)
    ensures "{" + (a + "," + (b + "," + c)) + "}" == "{" + a + "," + b + "," + c + "}"
  {}

  lemma FourFields(a: Member, b: Member, c: Member, d: Member)
    ensures Text(Object([a, b, c, d]))
            == "{" + MemberText(a) + "," + MemberText(b) + "," + MemberText(c) + "," + MemberText(d) + "}"
  {
    hide MemberText;
    assert [a, b, c, d][1..] == [b, c, d] && [b, c, d][1..] == [c, d] && [c, d][1..] == [d];
    assert MembersText([c, d]) == MemberText(c) + "," + MemberText(d);
    assert MembersText([b, c, d]) == MemberText(b) + "," + MembersText([c, d]);
    assert MembersText([a, b, c, d]) == MemberText(a) + "," + MembersText([b, c, d]);
    Commas4(MemberText(a), MemberText(b), MemberText(c), MemberText(d));
  }

  lemma Commas4(a: string, b: string, c: string, d: string)
    ensures "{" + (a + "," + (b + "," + (c + "," + d))) + "}" == "{" + a + "," + b + "," + c + "," + d + "}"
  {}

  // ---------------------------------------------------------------- the builder's spellings

  /** An object whose first member is a constant, up to the second one's value. */
  function Head(key: string, constant: string, next: string): string { "{" + (Key(key) + Quote(constant)) + "," + Key(next) }

  lemma SpellTwo(a: string, k: string, v: string)
    ensures "{" + a + "," + (k + v) + "}" == ("{" + a + "," + k) + v + "}"
  {}

  lemma SpellThree(a: string, k: string, v: string, c: string)
    ensures "{" + a + "," + (k + v) + "," + c + "}" == ("{" + a + "," + k) + v + ("," + c) + "}"
  {}

  lemma SpellFour(a: string, k: string, v: string, c: string, d: string)
    ensures "{" + a + "," + (k + v) + "," + c + "," + d + "}" == ("{" + a + "," + k) + v + ("," + c) + ("," + d) + "}"
  {}

  /** `{"role":"user","content":` or the assistant's. */
  function TurnHead(assistant: bool): string { Head("role", if assistant then "assistant" else "user", "content") }

  lemma TurnText(assistant: bool, content: Value)
    ensures Text(Turn(assistant, content)) == TurnHead(assistant) + Text(content) + "}"
  {
    hide Text, MemberText, Quote, Key;
    var role := if assistant then "assistant" else "user";
    TwoFields(Field("role", Str(role)), Field("content", content));
    KeyText("role", Str(role));
    KeyText("content", content);
    StrText(role);
    SpellTwo(Key("role") + Quote(role), Key("content"), Text(content));
  }

  /** `{"type":"text","text":` */
  function TextHead(): string { Head("type", "text", "text") }

  /** `,"cache_control":` and the breakpoint, if there is one. */
  function CacheText(cache: Cache): string { if cache.Cached? then "," + (Key("cache_control") + Text(cache.value)) else "" }

  lemma TextBlockText(raw: string, cache: Cache)
    ensures Text(TextBlock(raw, cache)) == TextHead() + Quote(raw) + CacheText(cache) + "}"
  {
    hide Text, MemberText, Quote, Key;
    var a, b := Field("type", Str("text")), Field("text", Str(raw));
    KeyText("type", Str("text"));
    KeyText("text", Str(raw));
    StrText("text");
    StrText(raw);
    if cache.Cached? {
      var c := Field("cache_control", cache.value);
      assert [a, b] + [c] == [a, b, c];
      ThreeFields(a, b, c);
      KeyText("cache_control", cache.value);
      SpellThree(Key("type") + Quote("text"), Key("text"), Quote(raw), MemberText(c));
    } else {
      assert [a, b] + [] == [a, b];
      TwoFields(a, b);
      SpellTwo(Key("type") + Quote("text"), Key("text"), Quote(raw));
      NothingAdded(TextHead() + Quote(raw));
    }
  }

  lemma NothingAdded(s: string)
    ensures s + "" == s
  {}

  /** `{"type":"tool_result","tool_use_id":` */
  function ResultHead(): string { Head("type", "tool_result", "tool_use_id") }

  lemma ToolResultText(id: string, text: string)
    ensures Text(ToolResult(id, text)) == ResultHead() + Quote(id) + ("," + (Key("content") + Quote(text))) + "}"
  {
    hide Text, MemberText, Quote, Key;
    var a, b, c := Field("type", Str("tool_result")), Field("tool_use_id", Str(id)), Field("content", Str(text));
    ThreeFields(a, b, c);
    KeyText("type", Str("tool_result"));
    KeyText("tool_use_id", Str(id));
    KeyText("content", Str(text));
    StrText("tool_result");
    StrText(id);
    StrText(text);
    SpellThree(Key("type") + Quote("tool_result"), Key("tool_use_id"), Quote(id), MemberText(c));
  }

  /** `{"type":"tool_use","id":` */
  function UseHead(): string { Head("type", "tool_use", "id") }

  lemma ToolUseText(id: string, name: string, input: Doc)
    ensures Text(ToolUse(id, name, input))
            == UseHead() + Quote(id) + ("," + (Key("name") + Quote(name))) + ("," + (Key("input") + DocText(input))) + "}"
  {
    hide Text, MemberText, DocText, Quote, Key;
    var a, b, c := Field("type", Str("tool_use")), Field("id", Str(id)), Field("name", Str(name));
    var m := Member("", "input", "", input.pre, input.value, input.post);
    FourFields(a, b, c, m);
    KeyText("type", Str("tool_use"));
    KeyText("id", Str(id));
    KeyText("name", Str(name));
    StrText("tool_use");
    StrText(id);
    StrText(name);
    InputText(m, input);
    SpellFour(Key("type") + Quote("tool_use"), Key("id"), Quote(id), MemberText(c), MemberText(m));
  }

  lemma InputText(m: Member, input: Doc)
    requires m == Member("", "input", "", input.pre, input.value, input.post)
    ensures MemberText(m) == Key("input") + DocText(input)
  {
    hide Text;
    assert MemberHead(m) == "\"input\":" + input.pre;
    assert Key("input") == "\"input\":";
  }
}
