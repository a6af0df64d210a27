/** The body scan as an automaton that reads one byte at a time (provider/src/body_scan.cpp).

    This is the specification the class in BodyScan.dfy refines: the container stack is a
    sequence and keys are kept as text, where the class keeps a 64-bit word and offsets.
 */
module Automaton {
  import opened Json
  import opened Options

  const MAX_DEPTH: nat := 64
  const MAX_KEYS: nat := 256

  /** The members a policy may set, the bits of the original's mask. */
  datatype Field = ServiceTier | Speed | InferenceGeo

  function FieldKey(f: Field): string {
    match f
    case ServiceTier => "service_tier"
    case Speed => "speed"
    case InferenceGeo => "inference_geo"
  }

  function FieldOf(key: string): Option<Field> {
    if key == "service_tier" then Some(ServiceTier)
    else if key == "speed" then Some(Speed)
    else if key == "inference_geo" then Some(InferenceGeo)
    else None
  }

  lemma NamesApart()
    ensures FieldOf("model").None? && FieldOf("stream_options").None? && "model" != "stream_options"
  {
    assert "speed"[0] != "model"[0];
  }

  /** What reset() was called with. */
  datatype Config = Config(allKeys: bool, trackModel: bool, mask: set<Field>)

  datatype Kind = InObj | InArr

  datatype St =
    | Due                   // a value is due: the root, after ':' or after ',' in an array
    | ArrFirst | ObjFirst | ObjKey | Colon | ObjNext | ArrNext
    | InStr(key: bool) | StrEsc(key: bool) | StrHex(key: bool, digits: nat)
    | NumSign | NumZero | NumInt | NumDot | NumFrac | NumE | NumESign | NumExp
    | InLit(literal: Literal, read: nat)
    | End

  datatype Why =
    | Good | BadJson | ControlByte | EscapedKey | RepeatedKey | TooManyKeys
    | NotObject | NotString | TooDeep | ContentAfter | EndsInside

  /** A member the mask names, closed: [at, end) from the separator before it. */
  datatype Span = Span(at: nat, valueAt: nat, end: nat, field: Field)

  datatype Tracking = Idle | ModelNext | ModelOpen

  datatype Pending = NoMember | MemberNext(field: Field, at: nat) | MemberOpen(field: Field, at: nat, valueAt: nat)

  /** What a caller reads off the scan: the hold and the tracked spans. */
  datatype Marks = Marks(hold: Option<nat>, modelAt: Option<nat>, modelEnd: Option<nat>,
                         openAt: Option<nat>, hasMember: bool, found: seq<Span>)

  /** Everything but the position in the grammar and the keys read. */
  datatype Core = Core(
    optionsDepth: nat,
    optionsNext: bool,
    modelSeen: bool,
    model: Tracking,
    seen: set<Field>,
    pending: Pending,
    marks: Marks,
    why: Why)

  datatype Scan = Scan(
    st: St,
    stack: seq<Kind>,
    word: string,            // the key being read, so far
    top: seq<string>,        // keys of the root object
    options: seq<string>,    // keys of stream_options
    core: Core)

  const START := Core(0, false, false, Idle, {}, NoMember, Marks(None, None, None, None, false, []), Good)

  const INIT := Scan(Due, [], "", [], [], START)

  predicate Alive(s: Scan) { s.core.why == Good }

  function Refuse(s: Scan, why: Why): Scan { s.(core := s.core.(why := why)) }

  function Check(s: Scan, ok: bool): Scan { if ok then s else Refuse(s, BadJson) }

  function Held(c: Core, hold: Option<nat>): Core { c.(marks := c.marks.(hold := hold)) }

  // ---------------------------------------------------------------- a value closes

  /** What the container expects after a value. */
  function AfterValue(stack: seq<Kind>): St {
    if stack == [] then End else if stack[|stack| - 1].InObj? then ObjNext else ArrNext
  }

  function CloseModel(c: Core, depth: nat, end: nat): Core {
    if c.model.ModelOpen? && depth == 1
    then c.(model := Idle, marks := c.marks.(modelEnd := Some(end), hold := None))
    else c
  }

  function CloseMember(c: Core, depth: nat, end: nat): Core {
    if c.pending.MemberOpen? && depth == 1
    then c.(pending := NoMember,
            marks := c.marks.(
              found := c.marks.found + [Span(c.pending.at, c.pending.valueAt, end, c.pending.field)],
              hold := None))
    else c
  }

  /** What a value ending before `end` settles: the model, a member, or the root. */
  function Settle(cfg: Config, c: Core, depth: nat, end: nat): (r: Core)
    ensures r.why == c.why
  {
    var d := CloseMember(CloseModel(c, depth, end), depth, end);
    if depth == 0 && cfg.mask != {} then Held(d, None) else d
  }

  function ValueDone(cfg: Config, s: Scan, end: nat): Scan {
    s.(st := AfterValue(s.stack), core := Settle(cfg, s.core, |s.stack|, end))
  }

  /** The depth of `stream_options`' keys, forgotten once its object closed. */
  function LeaveOptions(c: Core, depth: nat): Core {
    if depth < c.optionsDepth then c.(optionsDepth := 0) else c
  }

  function CloseContainer(cfg: Config, s: Scan, i: nat): Scan
    requires s.stack != []
  {
    var stack := s.stack[..|s.stack| - 1];
    ValueDone(cfg, s.(stack := stack, core := LeaveOptions(s.core, |stack|)), i + 1)
  }

  // ---------------------------------------------------------------- a key

  /** Keys are checked in the root object and in the object under `stream_options`. */
  predicate Tracked(c: Core, depth: nat) {
    depth == 1 || (c.optionsDepth != 0 && depth == c.optionsDepth)
  }

  function MinHold(h: Option<nat>, i: nat): Option<nat> {
    if h.Some? && h.value < i then h else Some(i)
  }

  /** A key's opening quote at `i`: held, unless a separator before it already is. */
  function HoldKey(c: Core, depth: nat, i: nat): (r: Core)
    ensures r.why == c.why
  {
    if Tracked(c, depth) then Held(c, MinHold(c.marks.hold, i)) else c
  }

  function OpenKey(s: Scan, i: nat): Scan {
    s.(st := InStr(true), word := "", core := HoldKey(s.core, |s.stack|, i))
  }

  /** A checked key closed: it may go, unless the mask names it. */
  function KeyHold(cfg: Config, c: Core, depth: nat, k: string): Core {
    if depth == 1 && cfg.mask != {} then
      var d := c.(marks := c.marks.(hasMember := true));
      var f := FieldOf(k);
      if f.Some? && f.value in cfg.mask then
        if f.value in d.seen then d.(why := RepeatedKey)
        else d.(seen := d.seen + {f.value},
                pending := MemberNext(f.value, if d.marks.hold.Some? then d.marks.hold.value else 0))
      else Held(d, None)
    else Held(c, None)
  }

  function KeyModel(cfg: Config, c: Core, depth: nat, k: string): Core {
    if c.why == Good && depth == 1 && k == "model" then
      if c.modelSeen then c.(why := RepeatedKey)
      else c.(modelSeen := true, model := if cfg.trackModel then ModelNext else Idle)
    else c
  }

  /** The rule on all keys of one object: not repeated, at most MAX_KEYS. */
  function KeyRule(c: Core, known: bool, count: nat): Core {
    if count == MAX_KEYS then c.(why := TooManyKeys)
    else if known then c.(why := RepeatedKey)
    else c
  }

  function KeySet(cfg: Config, s: Scan, k: string): Scan {
    if !Alive(s) || !cfg.allKeys then s
    else
      var keys := if |s.stack| == 1 then s.top else s.options;
      var c := KeyRule(s.core, k in keys, |keys|);
      if c.why != Good then s.(core := c)
      else if |s.stack| == 1 then s.(top := keys + [k], core := c.(optionsNext := k == "stream_options"))
      else s.(options := keys + [k])
  }

  function KeyDone(cfg: Config, s: Scan): Scan {
    var k, depth := s.word, |s.stack|;
    var t := s.(st := Colon, word := "");
    if !Tracked(s.core, depth) then t
    else if '\\' in k then Refuse(t, EscapedKey)
    else KeySet(cfg, t.(core := KeyModel(cfg, KeyHold(cfg, t.core, depth, k), depth, k)), k)
  }

  // ---------------------------------------------------------------- a value opens

  /** What is tracked about a value whose first byte, `c`, is at `i`. */
  function StartValue(cfg: Config, c: Core, depth: nat, i: nat, first: char): Core {
    var d := if c.model.ModelNext?
             then c.(optionsNext := false, model := ModelOpen,
                     marks := c.marks.(modelAt := Some(i), hold := Some(i)))
             else c.(optionsNext := false);
    if cfg.mask == {} then d
    else if depth == 0 && first != '{' then d.(why := NotObject)
    else if !d.pending.MemberNext? then d
    else if first != '"' then d.(pending := NoMember, why := NotString)
    else d.(pending := MemberOpen(d.pending.field, d.pending.at, i))
  }

  /** A container opened by the byte at `i`, now the innermost, at `depth`. */
  function Enter(cfg: Config, c: Core, depth: nat, i: nat, kind: Kind, options: bool): Core {
    var d := if cfg.mask != {} && depth == 1
             then c.(marks := c.marks.(openAt := Some(i + 1), hold := Some(i + 1))) else c;
    if kind.InObj? && options && depth == 2 then d.(optionsDepth := 2) else d
  }

  function Push(cfg: Config, s: Scan, i: nat, kind: Kind, options: bool): Scan {
    if |s.stack| == MAX_DEPTH then Refuse(s, TooDeep)
    else s.(stack := s.stack + [kind],
            core := Enter(cfg, s.core, |s.stack| + 1, i, kind, options),
            st := if kind.InObj? then ObjFirst else ArrFirst)
  }

  /** The state a scalar's first byte leads to; `End` for a byte that begins no value. */
  function ScalarState(first: char): St {
    if first == '"' then InStr(false)
    else if first == 't' then InLit(True, 1)
    else if first == 'f' then InLit(False, 1)
    else if first == 'n' then InLit(Null, 1)
    else if first == '-' then NumSign
    else if first == '0' then NumZero
    else if Digit(first) then NumInt
    else End
  }

  function Begin(cfg: Config, s: Scan, i: nat, first: char): Scan {
    var t := s.(core := StartValue(cfg, s.core, |s.stack|, i, first));
    if !Alive(t) then t
    else if first == '{' then Push(cfg, t, i, InObj, s.core.optionsNext)
    else if first == '[' then Push(cfg, t, i, InArr, s.core.optionsNext)
    else if ScalarState(first).End? then Refuse(t, BadJson)
    else t.(st := ScalarState(first))
  }

  // ---------------------------------------------------------------- one byte

  /** The states between tokens, where whitespace is skipped. */
  predicate Between(st: St) {
    st.Due? || st.ArrFirst? || st.ObjFirst? || st.ObjKey? || st.Colon? || st.ObjNext? || st.ArrNext? || st.End?
  }

  /** Inside a key. */
  predicate Spelling(st: St) { (st.InStr? || st.StrEsc? || st.StrHex?) && st.key }

  /** A comma between root members is held with the member after it. */
  function HoldComma(cfg: Config, c: Core, depth: nat, i: nat): Core {
    if cfg.mask != {} && depth == 1 then Held(c, Some(i)) else c
  }

  function Punct(cfg: Config, s: Scan, i: nat, c: char): Scan
    requires Between(s.st)
  {
    if Ws(c) then s
    else
      match s.st
      case Colon => Check(s.(st := Due), c == ':')
      case ObjFirst =>
        if c == '}' && s.stack != [] then CloseContainer(cfg, s, i)
        else if c == '"' then OpenKey(s, i) else Refuse(s, BadJson)
      case ObjKey => if c == '"' then OpenKey(s, i) else Refuse(s, BadJson)
      case ObjNext =>
        if c == ',' then
          s.(st := ObjKey, core := HoldComma(cfg, s.core, |s.stack|, i))
        else if c == '}' && s.stack != [] then CloseContainer(cfg, s, i) else Refuse(s, BadJson)
      case ArrNext =>
        if c == ',' then s.(st := Due)
        else if c == ']' && s.stack != [] then CloseContainer(cfg, s, i) else Refuse(s, BadJson)
      case ArrFirst => if c == ']' && s.stack != [] then CloseContainer(cfg, s, i) else Begin(cfg, s, i, c)
      case Due => Begin(cfg, s, i, c)
      case _ => Refuse(s, ContentAfter)
  }

  predicate NumberFinal(st: St) { st.NumZero? || st.NumInt? || st.NumFrac? || st.NumExp? }

  /** A number ends at the first byte it cannot take, which its container reads again. */
  function NumberEnds(cfg: Config, s: Scan, i: nat, c: char): Scan {
    Punct(cfg, ValueDone(cfg, s, i), i, c)
  }

  function Spell(s: Scan, c: char): Scan
    requires s.st.InStr? || s.st.StrEsc? || s.st.StrHex?
  {
    if s.st.key then s.(word := s.word + [c]) else s
  }

  function Step(cfg: Config, s: Scan, i: nat, c: char): Scan {
    if !Alive(s) then s
    else
      match s.st
      case InStr(key) =>
        if c == '\\' then Spell(s, c).(st := StrEsc(key))
        else if c == '"' then (if key then KeyDone(cfg, s) else ValueDone(cfg, s, i + 1))
        else if c < ' ' then Refuse(s, ControlByte)
        else Spell(s, c)
      case StrEsc(key) =>
        if c == 'u' then Spell(s, c).(st := StrHex(key, 0))
        else Check(Spell(s, c).(st := InStr(key)), ShortEscape(c))
      case StrHex(key, n) =>
        Check(Spell(s, c).(st := if n + 1 == 4 then InStr(key) else StrHex(key, n + 1)), Hex(c))
      case InLit(l, n) =>
        if n < |LiteralText(l)| && c == LiteralText(l)[n] then
          if n + 1 == |LiteralText(l)| then ValueDone(cfg, s, i + 1) else s.(st := InLit(l, n + 1))
        else Refuse(s, BadJson)
      case NumSign => Check(s.(st := if c == '0' then NumZero else NumInt), Digit(c))
      case NumZero =>
        if Digit(c) then Refuse(s, BadJson)
        else if c == '.' then s.(st := NumDot)
        else if c == 'e' || c == 'E' then s.(st := NumE)
        else NumberEnds(cfg, s, i, c)
      case NumInt =>
        if Digit(c) then s
        else if c == '.' then s.(st := NumDot)
        else if c == 'e' || c == 'E' then s.(st := NumE)
        else NumberEnds(cfg, s, i, c)
      case NumDot => Check(s.(st := NumFrac), Digit(c))
      case NumFrac =>
        if Digit(c) then s
        else if c == 'e' || c == 'E' then s.(st := NumE)
        else NumberEnds(cfg, s, i, c)
      case NumE =>
        if c == '+' || c == '-' then s.(st := NumESign) else Check(s.(st := NumExp), Digit(c))
      case NumESign => Check(s.(st := NumExp), Digit(c))
      case NumExp => if Digit(c) then s else NumberEnds(cfg, s, i, c)
      case _ => Punct(cfg, s, i, c)
  }

  /** The bytes `text`, the first of them at offset `at` of the body. */
  function Run(cfg: Config, s: Scan, at: nat, text: string): Scan
    decreases |text|
  {
    if text == "" then s else Run(cfg, Step(cfg, s, at, text[0]), at + 1, text[1..])
  }

  /** Nothing follows: a number at the root ends here, and the root must have closed. */
  function Finish(s: Scan): Scan {
    if !Alive(s) then s
    else if s.st.End? then s
    else if s.stack == [] && NumberFinal(s.st) then s.(st := End)
    else Refuse(s, EndsInside)
  }

  predicate Done(s: Scan) { Alive(s) && s.st.End? }

  /** The whole body, scanned under `cfg`. */
  function Verdict(cfg: Config, body: string): Scan { Finish(Run(cfg, INIT, 0, body)) }

  /** The prefix that may be forwarded once `i` bytes were read. */
  function Safe(s: Scan, i: nat): nat {
    var hold := s.core.marks.hold;
    if hold.Some? && hold.value < i then hold.value else i
  }

  // ---------------------------------------------------------------- runs

  lemma {:induction false} RunAppend(cfg: Config, s: Scan, at: nat, a: string, b: string)
    ensures Run(cfg, s, at, a + b) == Run(cfg, Run(cfg, s, at, a), at + |a|, b)
    decreases |a|
  {
    hide Step;
    if a == "" {
      assert a + b == b;
    } else {
      assert (a + b)[0] == a[0] && (a + b)[1..] == a[1..] + b;
      RunAppend(cfg, Step(cfg, s, at, a[0]), at + 1, a[1..], b);
    }
  }

  lemma {:induction false} RunRefused(cfg: Config, s: Scan, at: nat, text: string)
    requires !Alive(s)
    ensures Run(cfg, s, at, text) == s
    decreases |text|
  {
    if text != "" { RunRefused(cfg, s, at + 1, text[1..]); }
  }
}
