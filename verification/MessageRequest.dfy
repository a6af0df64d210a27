/** The whole Anthropic request (`messages_request` in provider/src/translate_anthropic.cpp): the
    system text hoisted, then the turns, as one JSON object.
 */
module MessageRequest {
  import opened Options
  import opened Json
  import opened Messages
  import opened MessageText
  import opened MessageBuilder
  import opened SpliceTree

  // ---------------------------------------------------------------- the system text

  lemma CacheNext(ms: seq<Message>, k: nat, before: Cache)
    requires k < |ms|
    ensures SystemCache(ms[k..], before)
            == SystemCache(ms[k + 1..], if ms[k].role.System? && ms[k].content.Parts? then LastCache(ms[k].content.parts, before) else before)
  {
    assert ms[k..][1..] == ms[k + 1..];
  }

  /** The last breakpoint among a message's parts; refused if one is malformed. */
  method ScanParts(parts: seq<Part>, before: Cache) returns (ok: bool, cache: Cache)
    ensures ok <==> forall p <- parts :: !p.cache.BadCache?
    ensures ok ==> cache == LastCache(parts, before)
  {
    ok, cache := true, before;
    assert parts[..0] == [];
    for j := 0 to |parts|
      invariant forall i | 0 <= i < j :: !parts[i].cache.BadCache?
      invariant cache == LastCache(parts[..j], before)
    {
      var p := parts[j];
      if p.cache.BadCache? {
        assert p in parts;
        return false, cache;
      }
      assert parts[..j + 1][..j] == parts[..j];
      if p.cache.Cached? { cache := p.cache; }
    }
    assert parts[..|parts|] == parts;
  }

  /** The first pass: whether there is a system message, and which breakpoint it ends with. */
  method ScanSystem(ms: seq<Message>) returns (ok: bool, any: bool, cache: Cache)
    ensures ok <==> !SystemBad(ms)
    ensures ok ==> (any <==> HasSystem(ms)) && cache == SystemCache(ms, NoCache)
  {
    hide LastCache, SystemCache;
    ok, any, cache := true, false, NoCache;
    assert ms[0..] == ms;
    for k := 0 to |ms|
      invariant forall i | 0 <= i < k :: !(ms[i].role.System? && BadCaches(ms[i].content))
      invariant any <==> exists i | 0 <= i < k :: ms[i].role.System?
      invariant SystemCache(ms, NoCache) == SystemCache(ms[k..], cache)
    {
      var m := ms[k];
      CacheNext(ms, k, cache);
      if m.role.System? {
        any := true;
        if m.content.Parts? {
          var fine, c := ScanParts(m.content.parts, cache);
          if !fine {
            assert m in ms;
            return false, any, cache;
          }
          cache := c;
        }
      }
    }
    assert ms[|ms|..] == [];
    assert SystemCache([], cache) == cache by { NoSystem(cache); }
    if any {
      var i :| 0 <= i < |ms| && ms[i].role.System?;
      assert ms[i] in ms;
    }
  }

  lemma NoSystem(cache: Cache)
    ensures SystemCache([], cache) == cache && SystemTexts([]) == Some([])
  {}

  lemma TextsNext(ms: seq<Message>, k: nat)
    requires k < |ms|
    ensures var rest, t := SystemTexts(ms[k + 1..]), TextOf(ms[k].content);
            SystemTexts(ms[k..]) == if !ms[k].role.System? then rest
                                    else if rest.None? || t.None? then None else Some([t.value] + rest.value)
  {
    assert ms[k..][1..] == ms[k + 1..];
  }

  lemma {:induction false} JoinTextsMore(texts: seq<string>, t: string)
    ensures JoinTexts(texts + [t]) == if texts == [] then t else JoinTexts(texts) + "\\n" + t
    decreases |texts|
  {
    if texts == [] {
      assert texts + [t] == [t];
    } else {
      assert (texts + [t])[1..] == texts[1..] + [t];
      JoinTextsMore(texts[1..], t);
      if |texts| > 1 { TextsJoin(texts[0], JoinTexts(texts[1..]), t); }
    }
  }

  lemma TextsJoin(a: string, b: string, c: string)
    ensures a + "\\n" + (b + "\\n" + c) == a + "\\n" + b + "\\n" + c
  {}

  /** The second pass: the texts, joined. */
  method AppendSystemTexts(out0: string, ms: seq<Message>) returns (ok: bool, out: string)
    ensures ok <==> SystemTexts(ms).Some?
    ensures ok ==> out == out0 + JoinTexts(SystemTexts(ms).value)
  {
    hide SystemTexts, TextOf, JoinTexts;
    ok, out := true, out0;
    var first := true;
    ghost var done: seq<string> := [];
    assert ms[0..] == ms && JoinTexts([]) == "" by { NoTexts(); }
    assert SystemTexts(ms).Some? ==> [] + SystemTexts(ms).value == SystemTexts(ms).value;
    for k := 0 to |ms|
      invariant (first <==> done == []) && out == out0 + JoinTexts(done)
      invariant SystemTexts(ms).Some? <==> SystemTexts(ms[k..]).Some?
      invariant SystemTexts(ms).Some? ==> SystemTexts(ms).value == done + SystemTexts(ms[k..]).value
    {
      TextsNext(ms, k);
      if ms[k].role.System? {
        ghost var before := out;
        if !first { out := out + "\\n"; }
        var fine;
        fine, out := AppendText(out, ms[k].content);
        if !fine { return false, out; }
        ghost var t := TextOf(ms[k].content).value;
        JoinTextsMore(done, t);
        if done != [] { assert out0 + (JoinTexts(done) + "\\n" + t) == out0 + JoinTexts(done) + "\\n" + t; }
        if SystemTexts(ms[k + 1..]).Some? {
          assert done + ([t] + SystemTexts(ms[k + 1..]).value) == done + [t] + SystemTexts(ms[k + 1..]).value;
        }
        first := false;
        done := done + [t];
        assert out0 + "" == out0;
      }
    }
    NoSystem(NoCache);
    assert ms[|ms|..] == [] && done + [] == done;
  }

  lemma NoTexts()
    ensures JoinTexts([]) == ""
  {}

  /** The `system` member's text, with its comma. */
  function SystemText(ms: seq<Message>): string
    requires SystemMember(ms).Some?
  {
    Commas(SystemMember(ms).value)
  }

  /** `append_system`. */
  method AppendSystem(out0: string, ms: seq<Message>) returns (ok: bool, out: string)
    ensures ok <==> SystemMember(ms).Some?
    ensures ok ==> out == out0 + SystemText(ms)
  {
    hide SystemTexts, JoinTexts, SystemCache, SystemBad, HasSystem, Commas, Text, TextBlock, Quote, Key, Head;
    out := out0;
    var any, cache;
    ok, any, cache := ScanSystem(ms);
    if !ok { return; }
    assert Commas([]) == "" by { NoCommas(); }
    if !any {
      assert out0 + "" == out0;
      return;
    }
    out := out + "," + Key("system");
    if cache.Cached? { out := out + "[" + TextHead(); }
    out := out + "\"";
    ok, out := AppendSystemTexts(out, ms);
    if !ok { return; }
    SystemWritten(out0, JoinTexts(SystemTexts(ms).value), cache);
    out := out + "\"";
    if cache.Cached? { out := out + CacheText(cache) + "}]"; }
  }

  lemma NoCommas()
    ensures Commas([]) == ""
  {}

  lemma OneComma(m: Member)
    ensures Commas([m]) == "," + MemberText(m)
  {
    hide MemberText;
    assert [m][1..] == [];
  }

  lemma SystemWritten(out0: string, text: string, cache: Cache)
    ensures var v := if cache.Cached? then Array([TextBlock(text, cache)]) else Str(text);
            out0 + Commas([Field("system", v)])
            == if cache.Cached? then out0 + "," + Key("system") + "[" + TextHead() + "\"" + text + "\"" + CacheText(cache) + "}]"
               else out0 + "," + Key("system") + "\"" + text + "\""
  {
    hide Text, TextBlock, Key, Head, Commas, MemberText;
    var v := if cache.Cached? then Array([TextBlock(text, cache)]) else Str(text);
    OneComma(Field("system", v));
    KeyText("system", v);
    if cache.Cached? {
      var b := TextBlock(text, cache);
      ArrayText([b]);
      assert Joined([b]) == Text(b);
      TextBlockText(text, cache);
      SystemBlockJoin(out0, Key("system"), TextHead(), text, CacheText(cache));
    } else {
      StrText(text);
      SystemPlainJoin(out0, Key("system"), text);
    }
  }

  lemma SystemBlockJoin(out0: string, key: string, head: string, text: string, cache: string)
    ensures out0 + ("," + (key + ("[" + (head + Quote(text) + cache + "}") + "]")))
            == out0 + "," + key + "[" + head + "\"" + text + "\"" + cache + "}]"
  {
    assert "}" + "]" == "}]";
  }

  lemma SystemPlainJoin(out0: string, key: string, text: string)
    ensures out0 + ("," + (key + Quote(text))) == out0 + "," + key + "\"" + text + "\""
  {}

  // ---------------------------------------------------------------- the request

  /** The object the venue is sent: the model, its token limit, the system text, the other
      parameters and tools as they were translated, and the turns. */
  function Request(first: Member, limit: Member, params: seq<Member>, ms: seq<Message>): Option<Value> {
    if SystemMember(ms).None? || Translation(ms).None? then None
    else Some(Object([first, limit] + SystemMember(ms).value + params + [Field("messages", Array(Translation(ms).value))]))
  }

  lemma {:induction false} CommasSum(a: seq<Member>, b: seq<Member>)
    ensures Commas(a + b) == Commas(a) + Commas(b)
    decreases |a|
  {
    hide MemberText;
    if a == [] {
      assert a + b == b;
    } else {
      assert (a + b)[1..] == a[1..] + b;
      CommasSum(a[1..], b);
    }
  }

  lemma RequestText(first: Member, limit: Member, params: seq<Member>, ms: seq<Message>)
    requires Request(first, limit, params, ms).Some?
    ensures Text(Request(first, limit, params, ms).value)
            == "{" + MemberText(first) + ("," + MemberText(limit)) + SystemText(ms) + Commas(params) + "," + Key("messages") + "[" +
               Joined(Translation(ms).value) + "]" + "}"
  {
    hide MemberText, Text, Commas, Joined, SystemMember, Translation, Key;
    var turns := Translation(ms).value;
    var last := Field("messages", Array(turns));
    var sys := SystemMember(ms).value;
    var rest := [limit] + sys + params + [last];
    var all := [first, limit] + sys + params + [last];
    assert all[0] == first && all[1..] == rest;
    ObjectText(all);
    MembersCommas(all);
    CommasSum([limit] + sys + params, [last]);
    CommasSum([limit] + sys, params);
    CommasSum([limit], sys);
    OneComma(limit);
    OneComma(last);
    KeyText("messages", Array(turns));
    ArrayText(turns);
    RequestJoin(MemberText(first), "," + MemberText(limit), Commas(sys), Commas(params), Key("messages"), Joined(turns));
  }

  lemma ObjectText(members: seq<Member>)
    requires members != []
    ensures Text(Object(members)) == "{" + MembersText(members) + "}"
  {
    hide MembersText;
  }

  lemma RequestJoin(a: string, b: string, c: string, d: string, key: string, turns: string)
    ensures "{" + (a + (b + c + d + ("," + (key + ("[" + turns + "]"))))) + "}"
            == "{" + a + b + c + d + "," + key + "[" + turns + "]" + "}"
  {}

  /** `messages_request`: for every message list, refused whole, or exactly the text of the
      translation. */
  method BuildRequest(first: Member, limit: Member, params: seq<Member>, ms: seq<Message>) returns (out: Option<string>)
    ensures var r := Request(first, limit, params, ms);
            out == if r.None? then None else Some(Text(r.value))
  {
    hide MemberText, Text, Commas, Joined, SystemMember, Translation, Key;
    var text := "{" + MemberText(first);
    text := text + ("," + MemberText(limit));
    var ok;
    ok, text := AppendSystem(text, ms);
    if !ok { return None; }
    text := text + Commas(params);
    text := text + "," + Key("messages") + "[";
    var turns := new AnthropicTurns(text);
    ok := turns.Walk(ms);
    if !ok { return None; }
    turns.CloseResults();
    RequestText(first, limit, params, ms);
    assert "]" + "}" == "]}";
    EndJoin(turns.out);
    return Some(turns.out + "]}");
  }

  lemma EndJoin(s: string)
    ensures s + "]" + "}" == s + "]}"
  {
    assert "]" + "}" == "]}";
  }
}
