/** OpenAI messages as Anthropic turns (provider/src/messages.hpp, provider/src/content.hpp and
    provider/src/translate_anthropic.cpp): what a list of messages means, as JSON trees.
 */
module Messages {
  import opened Options
  import opened Json

  // ---------------------------------------------------------------- what the parser hands over

  /** A part's `cache_control`: none, an object, or something else. */
  datatype Cache = NoCache | Cached(value: Value) | BadCache

  /** `text`: the part's type is `text`; `raw` its text, as escaped, empty for none. */
  datatype Part = Part(text: bool, raw: string, cache: Cache)

  /** `Absent`: no content, or a null, number, boolean or object where it should be, read as empty text. */
  datatype Content = Absent | Flat(raw: string) | Parts(parts: seq<Part>)

  /** A tool call; `name` empty for one that names no function. `input` is its arguments' text,
      unescaped, when that is one JSON object. */
  datatype Call = Call(id: string, name: string, input: Option<Doc>)

  datatype Role = System | User | Assistant | Tool | Unknown

  /** `developer` is the system role under a newer name. */
  datatype Message = Message(role: Role, content: Content, calls: seq<Call>, callId: string)

  // ---------------------------------------------------------------- small trees

  function Field(key: string, v: Value): Member { Member("", key, "", "", v, "") }

  function Object(members: seq<Member>): Value { Obj("", members) }

  function Items(vs: seq<Value>): (r: seq<Item>)
    ensures |r| == |vs|
  {
    seq(|vs|, i requires 0 <= i < |vs| => Item("", vs[i], ""))
  }

  function Array(vs: seq<Value>): Value { Arr("", Items(vs)) }

  function Turn(assistant: bool, content: Value): Value {
    Object([Field("role", Str(if assistant then "assistant" else "user")), Field("content", content)])
  }

  function TextBlock(raw: string, cache: Cache): Value {
    Object([Field("type", Str("text")), Field("text", Str(raw))] +
           if cache.Cached? then [Field("cache_control", cache.value)] else [])
  }

  function ToolUse(id: string, name: string, input: Doc): Value {
    Object([Field("type", Str("tool_use")), Field("id", Str(id)), Field("name", Str(name)),
            Member("", "input", "", input.pre, input.value, input.post)])
  }

  function ToolResult(id: string, text: string): Value {
    Object([Field("type", Str("tool_result")), Field("tool_use_id", Str(id)), Field("content", Str(text))])
  }

  // ---------------------------------------------------------------- contents

  /** The text of a content field; none when a part is not text. */
  function TextOf(c: Content): Option<string> {
    match c
    case Absent => Some("")
    case Flat(raw) => Some(raw)
    case Parts(parts) => PartsText(parts)
  }

  function PartsText(parts: seq<Part>): Option<string> {
    if parts == [] then Some("")
    else if !parts[0].text || PartsText(parts[1..]).None? then None
    else Some(parts[0].raw + PartsText(parts[1..]).value)
  }

  predicate BadCaches(c: Content) { c.Parts? && exists p <- c.parts :: p.cache.BadCache? }

  /** A part with text carries a breakpoint. */
  predicate Breakpoint(c: Content) { c.Parts? && exists p <- c.parts :: p.cache.Cached? && p.raw != "" }

  /** The text blocks of the parts that hold any. */
  function Blocks(parts: seq<Part>): seq<Value> {
    if parts == [] then []
    else (if parts[0].raw == "" then [] else [TextBlock(parts[0].raw, parts[0].cache)]) + Blocks(parts[1..])
  }

  predicate AllText(parts: seq<Part>) { forall p <- parts :: p.text }

  /** A turn's content: one string, or blocks when a breakpoint needs them. None refuses it. */
  function ContentOf(c: Content): Option<Value> {
    if BadCaches(c) then None
    else if Breakpoint(c) then (if AllText(c.parts) then Some(Array(Blocks(c.parts))) else None)
    else if TextOf(c).None? then None
    else Some(Str(TextOf(c).value))
  }

  // ---------------------------------------------------------------- one message

  predicate CallsOk(calls: seq<Call>) { forall c <- calls :: c.name != "" ==> c.input.Some? }

  /** The named calls, as blocks; one without a name is dropped. */
  function CallBlocks(calls: seq<Call>): seq<Value> {
    if calls == [] then []
    else (if calls[0].name == "" || calls[0].input.None? then []
          else [ToolUse(calls[0].id, calls[0].name, calls[0].input.value)]) + CallBlocks(calls[1..])
  }

  function LeadText(text: string): seq<Value> { if text == "" then [] else [TextBlock(text, NoCache)] }

  /** An assistant's calls, after its text if it has any. */
  function CallsTurn(m: Message): Option<Value> {
    if TextOf(m.content).None? || !CallsOk(m.calls) then None
    else Some(Turn(true, Array(LeadText(TextOf(m.content).value) + CallBlocks(m.calls))))
  }

  function ResultOf(m: Message): Option<Value> {
    if TextOf(m.content).None? then None else Some(ToolResult(m.callId, TextOf(m.content).value))
  }

  /** The turn of a message that is not a tool's result. */
  function TurnOf(m: Message): Option<Value> {
    if m.role.Unknown? || m.role.System? || m.role.Tool? then None
    else if m.role.Assistant? && m.calls != [] then CallsTurn(m)
    else if ContentOf(m.content).None? then None
    else Some(Turn(m.role.Assistant?, ContentOf(m.content).value))
  }

  // ---------------------------------------------------------------- the list

  /** The messages that make turns: system text is hoisted. */
  function Spoken(ms: seq<Message>): seq<Message> {
    if ms == [] then []
    else (if ms[0].role.System? then [] else [ms[0]]) + Spoken(ms[1..])
  }

  /** How many tool results stand at the front. */
  function Results(ms: seq<Message>): (n: nat)
    ensures n <= |ms| && (forall k | 0 <= k < n :: ms[k].role.Tool?) && (n < |ms| ==> !ms[n].role.Tool?)
  {
    if ms != [] && ms[0].role.Tool? then 1 + Results(ms[1..]) else 0
  }

  predicate Acceptable(m: Message) { if m.role.Tool? then ResultOf(m).Some? else TurnOf(m).Some? }

  predicate AllAcceptable(ms: seq<Message>) { forall m <- ms :: Acceptable(m) }

  function ResultValues(ms: seq<Message>): (r: seq<Value>)
    requires forall m <- ms :: m.role.Tool? && Acceptable(m)
    ensures |r| == |ms|
  {
    if ms == [] then []
    else
      assert ms[0] in ms && Acceptable(ms[0]) && ms[0].role.Tool?;
      [ResultOf(ms[0]).value] + ResultValues(ms[1..])
  }

  /** Every message once, in order; results next to each other in one user turn. */
  function Turns(ms: seq<Message>): seq<Value>
    requires AllAcceptable(ms)
    decreases |ms|
  {
    if ms == [] then []
    else
      var n := Results(ms);
      assert ms[0] in ms;
      if n > 0 then [Turn(false, Array(ResultValues(ms[..n])))] + Turns(ms[n..])
      else [TurnOf(ms[0]).value] + Turns(ms[1..])
  }

  /** The whole translation; none when any message is refused. */
  function Translation(ms: seq<Message>): Option<seq<Value>> {
    if AllAcceptable(Spoken(ms)) then Some(Turns(Spoken(ms))) else None
  }

  // ---------------------------------------------------------------- the system text

  /** The texts of the system messages, in order. */
  function SystemTexts(ms: seq<Message>): Option<seq<string>> {
    if ms == [] then Some([])
    else
      var rest := SystemTexts(ms[1..]);
      if !ms[0].role.System? then rest
      else if rest.None? || TextOf(ms[0].content).None? then None
      else Some([TextOf(ms[0].content).value] + rest.value)
  }

  /** Joined by an escaped newline. */
  function JoinTexts(texts: seq<string>): string {
    if texts == [] then "" else if |texts| == 1 then texts[0] else texts[0] + "\\n" + JoinTexts(texts[1..])
  }

  /** The last breakpoint of a system message's parts, or the one before. */
  function LastCache(parts: seq<Part>, before: Cache): Cache {
    if parts == [] then before
    else
      var p := parts[|parts| - 1];
      if p.cache.Cached? then p.cache else LastCache(parts[..|parts| - 1], before)
  }

  function SystemCache(ms: seq<Message>, before: Cache): Cache {
    if ms == [] then before
    else SystemCache(ms[1..], if ms[0].role.System? && ms[0].content.Parts? then LastCache(ms[0].content.parts, before) else before)
  }

  predicate SystemBad(ms: seq<Message>) { exists m <- ms :: m.role.System? && BadCaches(m.content) }

  predicate HasSystem(ms: seq<Message>) { exists m <- ms :: m.role.System? }

  /** The `system` member, if there is a system message. Outer none refuses the request. */
  function SystemMember(ms: seq<Message>): Option<seq<Member>> {
    if SystemBad(ms) then None
    else if !HasSystem(ms) then Some([])
    else if SystemTexts(ms).None? then None
    else
      var text, cache := JoinTexts(SystemTexts(ms).value), SystemCache(ms, NoCache);
      Some([Field("system", if cache.Cached? then Array([TextBlock(text, cache)]) else Str(text))])
  }
}
