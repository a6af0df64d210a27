/** Why a body is refused: the reason is told by the part of a tree that was read and the byte that was
    refused, or by the body ending there.
 */
module ScanReasons {
  import opened Json
  import opened JsonTree
  import opened Options
  import opened Automaton
  import opened ScanAccepts
  import opened ScanPlaces

  // ---------------------------------------------------------------- the keys of a part of a tree

  function TailKeys(t: Tail): Option<seq<string>> {
    match t
    case KeyDue(members, _) => Some(KeysOf(members))
    case InKey(members, _, _) => Some(KeysOf(members))
    case AfterKey(members, m) => Some(KeysOf(members) + [m.key])
    case AfterMember(members, last) => Some(KeysOf(members) + [last.key])
    case _ => None
  }

  function FrameKeys(f: Frame): Option<seq<string>> {
    if f.InMap? then Some(KeysOf(f.members) + [f.m.key]) else None
  }

  /** The keys closed so far of the container at this level, if it is an object. */
  function LevelKeys(p: Place, k: nat): Option<seq<string>> {
    if k < |p.frames| then FrameKeys(p.frames[k]) else if k == |p.frames| then TailKeys(p.tail) else None
  }

  function RootKeys(p: Place): seq<string> { if LevelKeys(p, 0).Some? then LevelKeys(p, 0).value else [] }

  predicate UnderOptions(p: Place) { p.frames != [] && p.frames[0].InMap? && p.frames[0].m.key == "stream_options" }

  function OptionKeys(p: Place): Option<seq<string>> { if UnderOptions(p) then LevelKeys(p, 1) else None }

  /** The root member whose value is due. */
  function DueKey(p: Place): Option<string> {
    if p.frames == [] && p.tail.AfterKey? then Some(p.tail.m.key)
    else if |p.frames| == 1 && p.frames[0].InMap? && p.tail.Wait? then Some(p.frames[0].m.key)
    else None
  }

  predicate Masked(cfg: Config, key: string) { exists f <- cfg.mask :: FieldKey(f) == key }

  predicate NoRepeat(keys: seq<string>) { forall i, j | 0 <= i < j < |keys| :: keys[i] != keys[j] }

  // ---------------------------------------------------------------- the reason

  /** A key closed: checked in the root, and with all keys checked in the object under `stream_options`. */
  function KeyReason(cfg: Config, p: Place, members: seq<Member>, key: string): Why {
    var root := p.frames == [];
    if !root && !(cfg.allKeys && UnderOptions(p) && |p.frames| == 1) then Good
    else if '\\' in key then EscapedKey
    else if root && (Masked(cfg, key) || key == "model") && key in KeysOf(members) then RepeatedKey
    else if cfg.allKeys && |members| == 256 then TooManyKeys
    else if cfg.allKeys && key in KeysOf(members) then RepeatedKey
    else Good
  }

  function Containers(p: Place): nat { |p.frames| + |Inner(p.tail)| }

  /** A value begun. */
  function ValueReason(cfg: Config, p: Place, c: char): Why {
    if cfg.mask != {} && p.frames == [] && p.tail.Wait? && c != '{' then NotObject
    else if DueKey(p).Some? && Masked(cfg, DueKey(p).value) && c != '"' then NotString
    else if (c == '{' || c == '[') && Containers(p) == 64 then TooDeep
    else Good
  }

  /** The reason a byte is refused for beyond being no JSON; `Good` if there is none. */
  function Named(cfg: Config, p: Place, c: char): Why {
    match p.tail
    case InKey(members, _, word) =>
      if !StringBody(word) then Good
      else if c == '"' then KeyReason(cfg, p, members, word)
      else if c < ' ' then ControlByte else Good
    case InText(raw) => if StringBody(raw) && c < ' ' then ControlByte else Good
    case Wait => if Ws(c) then Good else ValueReason(cfg, p, c)
    case FirstItem(_) => if Ws(c) || c == ']' then Good else ValueReason(cfg, p, c)
    case InNumber(st, n) =>
      if p.frames == [] && !Ws(c) && !GoesOn(st, c) && !(st.NumZero? && Digit(c)) then ContentAfter else Good
    case Whole(_, _) => if Ws(c) then Good else ContentAfter
    case _ => Good
  }

  /** Why a byte that was refused was refused. */
  function Reason(cfg: Config, p: Place, c: char): Why { if Named(cfg, p, c) == Good then BadJson else Named(cfg, p, c) }

  // ---------------------------------------------------------------- an open escape is no string contents

  predicate Stub(t: string) {
    t == "\\" || (2 <= |t| < 6 && t[0] == '\\' && t[1] == 'u')
  }

  lemma {:induction false} NotBody(front: string, t: string)
    requires StringBody(front) && Stub(t)
    ensures !StringBody(front + t)
    decreases |front|
  {
    hide StringBody;
    if front == "" {
      assert front + t == t;
      StubNot(t);
    } else {
      BodyFirst(front);
      var n, s := Width(front), front + t;
      assert s[n..] == front[n..] + t;
      assert s[0] == front[0] && (|front| > 1 ==> s[1] == front[1]);
      NotBody(front[n..], t);
      if StringBody(s) { BodyFirst(s); }
    }
  }

  lemma StubNot(t: string)
    requires Stub(t)
    ensures !StringBody(t)
  {}

  /** Inside a string, the contents so far are string contents exactly when no escape is open. */
  lemma BodyTells(st: St, raw: string)
    requires PartOfBody(st, raw)
    ensures StringBody(raw) <==> st.InStr?
  {
    hide StringBody;
    match st {
      case StrEsc(_) =>
        var front := raw[..|raw| - 1];
        assert raw == front + "\\";
        NotBody(front, "\\");
      case StrHex(_, n) =>
        var front, t := raw[..|raw| - n - 2], raw[|raw| - n - 2..];
        assert raw == front + t;
        NotBody(front, t);
      case _ =>
    }
  }

  // ---------------------------------------------------------------- the automaton's record of keys

  /** What the automaton keeps is what stands in the part of a tree. */
  predicate CoreAt(cfg: Config, s: Scan, p: Place) {
    var keys, c := RootKeys(p), s.core;
    && (c.modelSeen <==> "model" in keys)
    && (forall f: Field :: f in c.seen <==> f in cfg.mask && FieldKey(f) in keys)
    && (cfg.allKeys ==> s.top == keys && NoRepeat(keys))
    && c.optionsDepth == (if cfg.allKeys && OptionKeys(p).Some? then 2 else 0)
    && (cfg.allKeys && OptionKeys(p).Some? ==> s.options == OptionKeys(p).value)
    && (cfg.allKeys && OptionKeys(p).None? && ("stream_options" !in keys || DueKey(p) == Some("stream_options")) ==> s.options == [])
    && (c.optionsNext <==> cfg.allKeys && DueKey(p) == Some("stream_options"))
    && (c.pending.MemberNext? <==> DueKey(p).Some? && Masked(cfg, DueKey(p).value))
  }

  /** A step that closes no key and begins no value. */
  lemma CoreStays(cfg: Config, s: Scan, p: Place, t: Scan, q: Place)
    requires CoreAt(cfg, s, p) && t.top == s.top && t.options == s.options
    requires t.core.modelSeen == s.core.modelSeen && t.core.seen == s.core.seen && t.core.optionsNext == s.core.optionsNext
    requires t.core.pending.MemberNext? == s.core.pending.MemberNext?
    requires RootKeys(q) == RootKeys(p) && DueKey(q) == DueKey(p)
    requires OptionKeys(q) == OptionKeys(p) && t.core.optionsDepth == s.core.optionsDepth
    ensures CoreAt(cfg, t, q)
  {
    hide RootKeys, OptionKeys, DueKey, Masked, NoRepeat;
  }

  lemma KeysMore(members: seq<Member>, m: Member)
    ensures KeysOf(members + [m]) == KeysOf(members) + [m.key]
  {}

  // ---------------------------------------------------------------- each kind of step

  lemma BlankCore(cfg: Config, s: Scan, p: Place, c: char)
    requires CoreAt(cfg, s, p)
    ensures CoreAt(cfg, s, AddBlank(p, c))
  {
    var q := AddBlank(p, c);
    assert RootKeys(q) == RootKeys(p) && OptionKeys(q) == OptionKeys(p) && DueKey(q) == DueKey(p);
    CoreStays(cfg, s, p, s, q);
  }

  /** The keys when a value in the innermost container closes. */
  lemma ClosedKeys(p: Place, v: Value)
    requires p.frames != []
    ensures var q := Closed(p, v);
            && RootKeys(q) == RootKeys(p) && DueKey(q) == None && !q.tail.Whole?
            && OptionKeys(q) == if |p.frames| == 1 then None else OptionKeys(p)
  {
    var q, n := Closed(p, v), |p.frames| - 1;
    assert FrameKeys(p.frames[n]) == TailKeys(q.tail);
    assert forall k | 0 <= k < n :: q.frames[k] == p.frames[k];
  }

  predicate Scalar(t: Tail) { t.InText? || t.InWord? || t.InNumber? }

  lemma SettleCore(cfg: Config, s: Scan, end: nat)
    ensures var t := ValueDone(cfg, s, end);
            && t.top == s.top && t.options == s.options && t.core.modelSeen == s.core.modelSeen && t.core.seen == s.core.seen
            && t.core.optionsNext == s.core.optionsNext && t.core.optionsDepth == s.core.optionsDepth
            && t.core.pending.MemberNext? == s.core.pending.MemberNext? && t.core.why == s.core.why
  {}

  lemma ScalarCore(cfg: Config, s: Scan, end: nat, p: Place, v: Value)
    requires CoreAt(cfg, s, p) && Scalar(p.tail) && p.frames != []
    ensures CoreAt(cfg, ValueDone(cfg, s, end), Closed(p, v))
  {
    hide ValueDone, CoreAt, Closed;
    SettleCore(cfg, s, end);
    ClosedKeys(p, v);
    assert OptionKeys(p) == if |p.frames| == 1 then None else OptionKeys(p);
    assert DueKey(p) == None;
    CoreStays(cfg, s, p, ValueDone(cfg, s, end), Closed(p, v));
  }

  lemma ContainerCore(cfg: Config, s: Scan, i: nat, p: Place, v: Value)
    requires CoreAt(cfg, s, p) && p.frames != [] && |s.stack| == |p.frames| + 1 && DueKey(p) == None
    ensures CoreAt(cfg, CloseContainer(cfg, s, i), Closed(p, v)) && Alive(CloseContainer(cfg, s, i)) == Alive(s)
  {
    hide ValueDone, Closed, Masked, NoRepeat;
    var stack := s.stack[..|s.stack| - 1];
    var u := s.(stack := stack, core := LeaveOptions(s.core, |stack|));
    SettleCore(cfg, u, i + 1);
    ClosedKeys(p, v);
    OptionsInside(p);
  }

  lemma OptionsInside(p: Place)
    ensures OptionKeys(p).Some? ==> |p.frames| >= 1 && UnderOptions(p) && "stream_options" in RootKeys(p)
  {
    if OptionKeys(p).Some? {
      var f := p.frames[0];
      assert (KeysOf(f.members) + [f.m.key])[|f.members|] == "stream_options";
    }
  }

  lemma CommaCore(cfg: Config, s: Scan, p: Place, core: Core)
    requires CoreAt(cfg, s, p) && (p.tail.AfterMember? || p.tail.AfterItem?)
    requires core == s.core.(marks := core.marks)
    ensures CoreAt(cfg, s.(st := if p.tail.AfterMember? then ObjKey else Due, core := core), Between1(p, ','))
  {
    hide CoreAt;
    var q := Between1(p, ',');
    if p.tail.AfterMember? { KeysMore(p.tail.members, p.tail.last); }
    assert RootKeys(q) == RootKeys(p) && OptionKeys(q) == OptionKeys(p) && DueKey(q) == DueKey(p) == None;
    CoreStays(cfg, s, p, s.(st := if p.tail.AfterMember? then ObjKey else Due, core := core), q);
  }

  lemma KeyOpenCore(cfg: Config, s: Scan, p: Place, core: Core)
    requires CoreAt(cfg, s, p) && p.tail.KeyDue? && core == s.core.(marks := core.marks)
    ensures CoreAt(cfg, s.(st := InStr(true), word := "", core := core), Between1(p, '"'))
  {
    hide CoreAt;
    var q := Between1(p, '"');
    assert RootKeys(q) == RootKeys(p) && OptionKeys(q) == OptionKeys(p) && DueKey(q) == DueKey(p);
    CoreStays(cfg, s, p, s.(st := InStr(true), word := "", core := core), q);
  }

  lemma ColonCore(cfg: Config, s: Scan, p: Place)
    requires CoreAt(cfg, s, p) && p.tail.AfterKey?
    ensures CoreAt(cfg, s.(st := Due), Between1(p, ':'))
  {
    hide CoreAt;
    var q := Between1(p, ':');
    assert RootKeys(q) == RootKeys(p) && OptionKeys(q) == OptionKeys(p) && DueKey(q) == DueKey(p);
    CoreStays(cfg, s, p, s.(st := Due), q);
  }

  /** What the reasons at a value's first byte look at. */
  lemma ValueRefused(cfg: Config, s: Scan, i: nat, c: char, p: Place)
    requires StandsAt(s, p) && CoreAt(cfg, s, p) && Alive(s) && (p.tail.Wait? || p.tail.FirstItem?)
    ensures var t := Begin(cfg, s, i, c);
            if Alive(t) then ValueReason(cfg, p, c) == Good
            else t.core.why == if ValueReason(cfg, p, c) == Good then BadJson else ValueReason(cfg, p, c)
  {
    hide FrameOk, TailAt, RootKeys, OptionKeys, DueKey;
    assert |s.stack| == Containers(p);
    MaskedSome(cfg, p);
  }

  lemma MaskedSome(cfg: Config, p: Place)
    ensures DueKey(p).Some? && Masked(cfg, DueKey(p).value) ==> cfg.mask != {}
  {}

  /** The keys when a value begins. */
  lemma StartedKeys(p: Place, c: char)
    requires (p.tail.Wait? || p.tail.FirstItem?) && Starts(c) && !Ws(c) && (p.tail.FirstItem? ==> c != ']')
    ensures var q := Between1(p, c);
            && RootKeys(q) == RootKeys(p) && DueKey(q) == None
            && OptionKeys(q) == if c == '{' && DueKey(p) == Some("stream_options") then Some([]) else OptionKeys(p)
  {
    var q := Between1(p, c);
    assert KeysOf([]) == [];
    if p.tail.FirstItem? { assert forall k | 0 <= k < |p.frames| :: q.frames[k] == p.frames[k]; }
  }

  lemma BeginCore(cfg: Config, s: Scan, i: nat, c: char)
    requires Alive(s) && Alive(Begin(cfg, s, i, c)) && (s.core.pending.MemberNext? ==> cfg.mask != {})
    ensures var t := Begin(cfg, s, i, c);
            && t.top == s.top && t.options == s.options && t.core.modelSeen == s.core.modelSeen && t.core.seen == s.core.seen
            && !t.core.optionsNext && !t.core.pending.MemberNext?
            && t.core.optionsDepth == if c == '{' && s.core.optionsNext && |s.stack| == 1 then 2 else s.core.optionsDepth
  {}

  lemma ValueCore(cfg: Config, s: Scan, i: nat, c: char, p: Place)
    requires StandsAt(s, p) && CoreAt(cfg, s, p) && Alive(s) && Alive(Begin(cfg, s, i, c)) && !Ws(c)
    requires p.tail.Wait? || (p.tail.FirstItem? && c != ']')
    ensures CoreAt(cfg, Begin(cfg, s, i, c), Between1(p, c))
  {
    hide RootKeys, OptionKeys, DueKey, Between1, NoRepeat, Masked, StandsAt, Begin;
    MaskedSome(cfg, p);
    BeginsStarts(cfg, s, i, c);
    BeginCore(cfg, s, i, c);
    StartedKeys(p, c);
    DepthIs(s, p);
    DueDepth(p);
    OptionsInside(p);
  }

  lemma DepthIs(s: Scan, p: Place)
    requires StandsAt(s, p)
    ensures |s.stack| == Containers(p)
  {
    hide FrameOk, TailAt;
  }

  lemma DueDepth(p: Place)
    ensures DueKey(p).Some? && p.tail.Wait? ==> Containers(p) == 1
    ensures DueKey(p).Some? && p.tail.FirstItem? ==> false
    ensures DueKey(p).Some? ==> OptionKeys(p) == None && RootKeys(p) != []
  {}

  // ---------------------------------------------------------------- a key closes

  lemma MaskKey(cfg: Config, key: string)
    ensures Masked(cfg, key) <==> FieldOf(key).Some? && FieldOf(key).value in cfg.mask
    ensures Masked(cfg, key) ==> FieldKey(FieldOf(key).value) == key && key != "model" && key != "stream_options"
    ensures forall f: Field :: FieldKey(f) == key <==> FieldOf(key) == Some(f)
  {
    NamesApart();
    FieldKeys(key);
  }

  lemma FieldKeys(key: string)
    ensures forall f: Field :: FieldKey(f) == key <==> FieldOf(key) == Some(f)
  {
    assert "service_tier"[1] == 'e' && "speed"[1] == 'p' && "inference_geo"[0] == 'i';
  }

  /** The reason a key is refused for, and what is kept of it if it is not. */
  lemma KeyRefused(cfg: Config, s: Scan, p: Place)
    requires StandsAt(s, p) && CoreAt(cfg, s, p) && Alive(s) && p.tail.InKey?
    ensures KeyDone(cfg, s).core.why == KeyReason(cfg, p, p.tail.members, p.tail.word)
  {
    hide FrameOk, StringBody, MemberOk, OptionKeys, Masked;
    var InKey(members, pre, word) := p.tail;
    var root := p.frames == [];
    assert |s.stack| == |p.frames| + 1 && s.word == word;
    MaskKey(cfg, word);
    OptionsAt(p);
    if root { assert RootKeys(p) == KeysOf(members); }
  }

  /** Where the keys of stream_options are. */
  lemma OptionsAt(p: Place)
    requires p.tail.InKey?
    ensures |p.frames| == 1 ==> OptionKeys(p) == if UnderOptions(p) then Some(KeysOf(p.tail.members)) else None
    ensures p.frames == [] ==> OptionKeys(p) == None
  {}

  /** The keys once one closes. */
  lemma ClosedKey(p: Place)
    requires p.tail.InKey?
    ensures var q := Onward(p, InStr(true), '"'); var key := p.tail.word;
            && RootKeys(q) == (if p.frames == [] then RootKeys(p) + [key] else RootKeys(p))
            && DueKey(q) == (if p.frames == [] then Some(key) else None) && DueKey(p) == None
            && OptionKeys(q) == if |p.frames| == 1 && UnderOptions(p) then Some(OptionKeys(p).value + [key]) else OptionKeys(p)
  {
    var q := Onward(p, InStr(true), '"');
    assert forall k | 0 <= k < |p.frames| :: q.frames[k] == p.frames[k];
  }

  lemma NoRepeatMore(keys: seq<string>, key: string)
    requires NoRepeat(keys) && key !in keys
    ensures NoRepeat(keys + [key])
  {}

  lemma InMore(keys: seq<string>, key: string)
    ensures forall k :: k in keys + [key] <==> k in keys || k == key
  {}

  /** What the automaton keeps of a key of the root. */
  lemma RootKeyKept(cfg: Config, s: Scan)
    requires Alive(s) && |s.stack| == 1 && Alive(KeyDone(cfg, s))
    ensures var t, k := KeyDone(cfg, s), s.word;
            && t.core.modelSeen == (s.core.modelSeen || k == "model")
            && t.core.seen == (if Masked(cfg, k) then s.core.seen + {FieldOf(k).value} else s.core.seen)
            && t.core.optionsDepth == s.core.optionsDepth && t.options == s.options
            && t.top == (if cfg.allKeys then s.top + [k] else s.top) && (cfg.allKeys ==> k !in s.top)
            && t.core.optionsNext == (if cfg.allKeys then k == "stream_options" else s.core.optionsNext)
            && (t.core.pending.MemberNext? <==> Masked(cfg, k) || s.core.pending.MemberNext?)
  {
    hide Masked, KeyHold, KeyModel, KeySet, FieldOf;
    var c := KeyHold(cfg, s.core, 1, s.word);
    var d := KeyModel(cfg, c, 1, s.word);
    HoldKept(cfg, s.core, s.word);
    ModelKept(cfg, c, s.word);
    SetKept(cfg, s.(st := Colon, word := "", core := d), s.word);
  }

  lemma HoldKept(cfg: Config, c: Core, k: string)
    requires c.why == Good
    ensures var d := KeyHold(cfg, c, 1, k);
            && (d.why == Good ==> d.seen == if Masked(cfg, k) then c.seen + {FieldOf(k).value} else c.seen)
            && (d.why == Good ==> (d.pending.MemberNext? <==> Masked(cfg, k) || c.pending.MemberNext?))
            && d.modelSeen == c.modelSeen && d.optionsDepth == c.optionsDepth && d.optionsNext == c.optionsNext
  {
    hide Masked, FieldOf;
    MaskKey(cfg, k);
  }

  lemma ModelKept(cfg: Config, c: Core, k: string)
    ensures var d := KeyModel(cfg, c, 1, k);
            && (d.why == Good ==> c.why == Good && d.modelSeen == (c.modelSeen || k == "model"))
            && d.seen == c.seen && d.pending == c.pending && d.optionsDepth == c.optionsDepth && d.optionsNext == c.optionsNext
  {}

  lemma SetKept(cfg: Config, s: Scan, k: string)
    requires |s.stack| == 1 && Alive(KeySet(cfg, s, k))
    ensures var t := KeySet(cfg, s, k);
            && Alive(s) && t.core == s.core.(optionsNext := t.core.optionsNext) && t.options == s.options
            && t.top == (if cfg.allKeys then s.top + [k] else s.top) && (cfg.allKeys ==> k !in s.top)
            && t.core.optionsNext == if cfg.allKeys then k == "stream_options" else s.core.optionsNext
  {}

  lemma RootKeyCore(cfg: Config, s: Scan, p: Place)
    requires StandsAt(s, p) && CoreAt(cfg, s, p) && Alive(s) && p.tail.InKey? && p.frames == [] && Alive(KeyDone(cfg, s))
    ensures CoreAt(cfg, KeyDone(cfg, s), Onward(p, InStr(true), '"'))
  {
    hide KeyDone, RootKeys, OptionKeys, DueKey, Masked, Onward, StandsAt, NoRepeat;
    KeyDepth(s, p);
    RootKeyKept(cfg, s);
    ClosedKey(p);
    OptionsAt(p);
    MaskKey(cfg, s.word);
    InMore(RootKeys(p), s.word);
    if cfg.allKeys { NoRepeatMore(s.top, s.word); }
  }

  lemma KeyDepth(s: Scan, p: Place)
    requires StandsAt(s, p) && p.tail.InKey?
    ensures |s.stack| == |p.frames| + 1 && s.word == p.tail.word
  {
    hide FrameOk, StringBody, MemberOk;
  }

  /** What it keeps of a key further in. */
  lemma InnerKeyKept(cfg: Config, s: Scan)
    requires Alive(s) && |s.stack| >= 2 && (s.core.optionsDepth == 0 || s.core.optionsDepth == 2) && Alive(KeyDone(cfg, s))
    requires s.core.optionsDepth != 0 ==> cfg.allKeys
    ensures var t := KeyDone(cfg, s);
            && t.core == s.core.(marks := t.core.marks) && t.top == s.top
            && t.options == if s.core.optionsDepth == 2 && |s.stack| == 2 then s.options + [s.word] else s.options
  {}

  lemma InnerKeyCore(cfg: Config, s: Scan, p: Place)
    requires StandsAt(s, p) && CoreAt(cfg, s, p) && Alive(s) && p.tail.InKey? && p.frames != [] && Alive(KeyDone(cfg, s))
    ensures CoreAt(cfg, KeyDone(cfg, s), Onward(p, InStr(true), '"'))
  {
    hide KeyDone, RootKeys, OptionKeys, DueKey, Masked, Onward, StandsAt, NoRepeat;
    KeyDepth(s, p);
    InnerKeyKept(cfg, s);
    ClosedKey(p);
    OptionsAt(p);
  }

  // ---------------------------------------------------------------- every byte

  /** Between values: refused with its reason, or the record kept. */
  lemma PunctReason(cfg: Config, s: Scan, i: nat, c: char, p: Place)
    requires StandsAt(s, p) && CoreAt(cfg, s, p) && Alive(s) && Between(s.st) && !p.tail.Whole?
    ensures var t := Punct(cfg, s, i, c);
            && (Alive(t) ==> Named(cfg, p, c) == Good && (!Between1(p, c).tail.Whole? ==> CoreAt(cfg, t, Between1(p, c))))
            && (!Alive(t) ==> t.core.why == Reason(cfg, p, c))
  {
    StandsKind(s, p);
    if Ws(c) {
      BlankCore(cfg, s, p, c);
      assert Between1(p, c) == AddBlank(p, c);
      return;
    }
    hide StandsAt, CoreAt, Begin, CloseContainer, HoldComma, HoldKey, ValueReason, KeyReason, Closed, Between1;
    match p.tail {
      case Wait =>
        ValueRefused(cfg, s, i, c, p);
        if Alive(Begin(cfg, s, i, c)) { ValueCore(cfg, s, i, c, p); }
      case FirstItem(gap) =>
        if c == ']' { EndCore(cfg, s, i, p, c); } else {
          ValueRefused(cfg, s, i, c, p);
          if Alive(Begin(cfg, s, i, c)) { ValueCore(cfg, s, i, c, p); }
        }
      case KeyDue(members, pre) =>
        if c == '"' { HoldsOnly(cfg, s, i); KeyOpenCore(cfg, s, p, HoldKey(s.core, |s.stack|, i)); }
        else if c == '}' && members == [] { EndCore(cfg, s, i, p, c); }
      case AfterKey(members, m) => if c == ':' { ColonCore(cfg, s, p); }
      case AfterMember(members, last) =>
        if c == ',' { HoldsOnly(cfg, s, i); CommaCore(cfg, s, p, HoldComma(cfg, s.core, |s.stack|, i)); }
        else if c == '}' { EndCore(cfg, s, i, p, c); }
      case AfterItem(items, it) =>
        if c == ',' { CommaCore(cfg, s, p, s.core); }
        else if c == ']' { EndCore(cfg, s, i, p, c); }
    }
  }

  lemma HoldsOnly(cfg: Config, s: Scan, i: nat)
    ensures HoldKey(s.core, |s.stack|, i) == s.core.(marks := HoldKey(s.core, |s.stack|, i).marks)
    ensures HoldComma(cfg, s.core, |s.stack|, i) == s.core.(marks := HoldComma(cfg, s.core, |s.stack|, i).marks)
  {}

  /** A container's last byte. */
  lemma EndCore(cfg: Config, s: Scan, i: nat, p: Place, c: char)
    requires StandsAt(s, p) && CoreAt(cfg, s, p) && Alive(s)
    requires if c == ']' then p.tail.FirstItem? || p.tail.AfterItem? else c == '}' && (p.tail.AfterMember? || (p.tail.KeyDue? && p.tail.members == []))
    ensures Alive(CloseContainer(cfg, s, i))
    ensures !Between1(p, c).tail.Whole? ==> CoreAt(cfg, CloseContainer(cfg, s, i), Between1(p, c))
  {
    hide StandsAt, CoreAt, CloseContainer, Closed;
    DepthIs(s, p);
    var v := match p.tail
             case FirstItem(gap) => Arr(gap, [])
             case AfterItem(items, it) => Arr("", items + [it])
             case KeyDue(members, pre) => Obj(pre, [])
             case AfterMember(members, last) => Obj("", members + [last])
             case _ => Lit(Null);
    assert Between1(p, c) == Closed(p, v);
    if p.frames == [] { RootCloses(cfg, s, i, p, v); } else { ContainerCore(cfg, s, i, p, v); }
  }

  lemma RootCloses(cfg: Config, s: Scan, i: nat, p: Place, v: Value)
    requires Alive(s) && p.frames == [] && |s.stack| == 1
    ensures Alive(CloseContainer(cfg, s, i)) && Closed(p, v).tail.Whole?
  {}

  lemma StepReason(cfg: Config, s: Scan, i: nat, c: char, p: Place)
    requires StandsAt(s, p) && (!p.tail.Whole? ==> CoreAt(cfg, s, p)) && Alive(s)
    ensures var t, q := Step(cfg, s, i, c), Onward(p, s.st, c);
            && (Alive(t) ==> Named(cfg, p, c) == Good && (!q.tail.Whole? ==> CoreAt(cfg, t, q)))
            && (!Alive(t) ==> t.core.why == Reason(cfg, p, c))
  {
    StandsKind(s, p);
    assert Between(s.st) ==> Onward(p, s.st, c) == Between1(p, c);
    hide StandsAt, CoreAt, Step, Onward, Punct, KeyDone, ValueDone, KeyReason, ValueReason;
    if p.tail.Whole? {
      WholeReason(cfg, s, i, c, p);
    } else if Between(s.st) {
      BetweenSteps(cfg, s, i, c);
      PunctReason(cfg, s, i, c, p);
    } else if p.tail.InWord? {
      WordReason(cfg, s, i, c, p);
    } else if p.tail.InNumber? {
      NumberReason(cfg, s, i, c, p);
    } else {
      StringReason(cfg, s, i, c, p);
    }
  }

  lemma WholeReason(cfg: Config, s: Scan, i: nat, c: char, p: Place)
    requires StandsAt(s, p) && Alive(s) && p.tail.Whole?
    ensures var t := Step(cfg, s, i, c);
            && (Alive(t) <==> Ws(c)) && (!Alive(t) ==> t.core.why == ContentAfter)
            && (Alive(t) ==> Onward(p, s.st, c).tail.Whole?)
  {
    hide FrameOk, ValueOk;
    BetweenSteps(cfg, s, i, c);
  }

  lemma WordReason(cfg: Config, s: Scan, i: nat, c: char, p: Place)
    requires StandsAt(s, p) && CoreAt(cfg, s, p) && Alive(s) && p.tail.InWord?
    ensures var t, q := Step(cfg, s, i, c), Onward(p, s.st, c);
            && (Alive(t) ==> !q.tail.Whole? ==> CoreAt(cfg, t, q)) && (!Alive(t) ==> t.core.why == BadJson)
  {
    hide CoreAt, ValueDone, FrameOk, Closed, Punct, KeyDone, NumberEnds, LiteralText;
    var InWord(l, read) := p.tail;
    if c == LiteralText(l)[read] {
      if read + 1 == |LiteralText(l)| {
        if p.frames == [] { RootScalar(p, Lit(l)); } else { ScalarCore(cfg, s, i + 1, p, Lit(l)); }
        SettleCore(cfg, s, i + 1);
      } else {
        var q := p.(tail := InWord(l, read + 1));
        SameKeys(p, q.tail);
        CoreStays(cfg, s, p, s.(st := InLit(l, read + 1)), q);
      }
    }
  }

  lemma RootScalar(p: Place, v: Value)
    requires p.frames == []
    ensures Closed(p, v).tail.Whole?
  {}

  /** Moves inside a scalar. */
  lemma SameKeys(p: Place, t: Tail)
    requires Scalar(p.tail) && Scalar(t)
    ensures var q := p.(tail := t); RootKeys(q) == RootKeys(p) && OptionKeys(q) == OptionKeys(p) && DueKey(q) == DueKey(p) == None
  {}

  lemma NumberReason(cfg: Config, s: Scan, i: nat, c: char, p: Place)
    requires StandsAt(s, p) && CoreAt(cfg, s, p) && Alive(s) && p.tail.InNumber?
    ensures var t, q := Step(cfg, s, i, c), Onward(p, s.st, c);
            && (Alive(t) ==> Named(cfg, p, c) == Good && (!q.tail.Whole? ==> CoreAt(cfg, t, q)))
            && (!Alive(t) ==> t.core.why == Reason(cfg, p, c))
  {
    hide CoreAt, ValueDone, FrameOk, Closed, Punct, Step, NumberMore, GoesOn, Between1, NumberTakes;
    var InNumber(st, n) := p.tail;
    NumberAt(s, p);
    if GoesOn(st, c) {
      NumberMoves(cfg, s, i, c, n);
      if NumberTakes(st, c) {
        var u := NumberMore(st, n, c);
        SameKeys(p, u);
        CoreStays(cfg, s, p, s.(st := u.st), p.(tail := u));
      }
    } else {
      NumberStops(cfg, s, i, c, n);
      NumberWhole(st, n);
      EndReason(cfg, s, i, c, p);
    }
  }

  lemma NumberAt(s: Scan, p: Place)
    requires StandsAt(s, p) && p.tail.InNumber?
    ensures s.st == p.tail.st && PartOfNumber(s.st, p.tail.number) && s.stack == Kinds(p.frames)
    ensures Blank(p.lead) && forall f <- p.frames :: FrameOk(f)
  {
    hide FrameOk;
    assert Kinds(p.frames) + [] == Kinds(p.frames);
  }

  /** A byte that ends a number, which its container reads. */
  lemma EndReason(cfg: Config, s: Scan, i: nat, c: char, p: Place)
    requires StandsAt(s, p) && CoreAt(cfg, s, p) && Alive(s) && p.tail.InNumber? && NumberOk(p.tail.number)
    ensures var t, q := NumberEnds(cfg, s, i, c), Between1(Closed(p, Num(p.tail.number)), c);
            if p.frames == [] then q.tail.Whole? && (Alive(t) <==> Ws(c)) && (!Alive(t) ==> t.core.why == ContentAfter)
            else (Alive(t) ==> !q.tail.Whole? ==> CoreAt(cfg, t, q)) && (!Alive(t) ==> t.core.why == BadJson)
  {
    hide CoreAt, ValueDone, FrameOk, Punct, Between1, Closed;
    var v := Num(p.tail.number);
    var q, u := Closed(p, v), ValueDone(cfg, s, i);
    NumberAt(s, p);
    ClosedStands(cfg, s, i, p, v);
    DoneBetween(cfg, s, i);
    if p.frames == [] {
      RootScalar(p, v);
      WholeStays(q, c);
      BetweenSteps(cfg, u, i, c);
      WholeReason(cfg, u, i, c, q);
      assert Onward(q, u.st, c) == Between1(q, c);
    } else {
      ClosedKeys(p, v);
      ScalarCore(cfg, s, i, p, v);
      PunctReason(cfg, u, i, c, q);
      NoReasonThere(cfg, p, v, c);
    }
  }

  lemma WholeStays(p: Place, c: char)
    requires p.tail.Whole?
    ensures Between1(p, c).tail.Whole?
  {}

  lemma NoReasonThere(cfg: Config, p: Place, v: Value, c: char)
    requires p.frames != []
    ensures Named(cfg, Closed(p, v), c) == Good
  {}

  lemma StringReason(cfg: Config, s: Scan, i: nat, c: char, p: Place)
    requires StandsAt(s, p) && CoreAt(cfg, s, p) && Alive(s) && (p.tail.InKey? || p.tail.InText?)
    ensures var t, q := Step(cfg, s, i, c), Onward(p, s.st, c);
            && (Alive(t) ==> Named(cfg, p, c) == Good && (!q.tail.Whole? ==> CoreAt(cfg, t, q)))
            && (!Alive(t) ==> t.core.why == Reason(cfg, p, c))
  {
    StandsKind(s, p);
    hide CoreAt, ValueDone, FrameOk, Closed, Step, KeyDone, KeyReason, StringBody, MemberOk, StringTakes, StringState;
    BodyTells(s.st, if p.tail.InKey? then p.tail.word else p.tail.raw);
    if s.st.InStr? && c == '"' {
      StringCloses(cfg, s, i);
      if p.tail.InKey? {
        assert Onward(p, s.st, c) == Onward(p, InStr(true), '"');
        KeyRefused(cfg, s, p);
        if Alive(KeyDone(cfg, s)) {
          if p.frames == [] { RootKeyCore(cfg, s, p); } else { InnerKeyCore(cfg, s, p); }
        }
      } else {
        var v := Str(p.tail.raw);
        if p.frames == [] { RootScalar(p, v); } else { ScalarCore(cfg, s, i + 1, p, v); }
        SettleCore(cfg, s, i + 1);
      }
    } else {
      StringSteps(cfg, s, i, c);
      var q := Onward(p, s.st, c);
      SpeltKeys(p, c);
      if Alive(Step(cfg, s, i, c)) { StringKeeps(cfg, s, i, c); CoreStays(cfg, s, p, Step(cfg, s, i, c), q); }
    }
  }

  lemma StringKeeps(cfg: Config, s: Scan, i: nat, c: char)
    requires Alive(s) && (s.st.InStr? || s.st.StrEsc? || s.st.StrHex?) && !(s.st.InStr? && c == '"')
    ensures Step(cfg, s, i, c).top == s.top && Step(cfg, s, i, c).options == s.options
  {
    hide Punct, KeyDone, ValueDone, NumberEnds, LiteralText;
  }

  lemma SpeltKeys(p: Place, c: char)
    requires p.tail.InKey? || p.tail.InText?
    ensures var q := if p.tail.InKey? then p.(tail := InKey(p.tail.members, p.tail.pre, p.tail.word + [c])) else p.(tail := InText(p.tail.raw + [c]));
            RootKeys(q) == RootKeys(p) && OptionKeys(q) == OptionKeys(p) && DueKey(q) == DueKey(p)
  {}

  // ---------------------------------------------------------------- whole bodies

  ghost predicate TailOk(t: Tail) { exists st: St, word: string :: TailAt(st, word, t) }

  /** A part of a tree that is well-formed as far as it goes. */
  ghost predicate PlaceOk(p: Place) {
    Blank(p.lead) && (forall f <- p.frames :: FrameOk(f)) && TailOk(p.tail) && (p.tail.Whole? ==> p.frames == [])
  }

  /** After `n` bytes, the text of this part, the next byte was refused. */
  ghost predicate RefusedAt(cfg: Config, body: string, n: nat, p: Place, why: Why) {
    n < |body| && PlaceOk(p) && PlaceText(p) == body[..n] && why == Reason(cfg, p, body[n])
  }

  lemma StandsOk(s: Scan, p: Place)
    requires StandsAt(s, p)
    ensures PlaceOk(p)
  {
    hide TailAt, FrameOk;
    assert TailAt(s.st, s.word, p.tail);
  }

  lemma StartStands(cfg: Config)
    ensures StandsAt(INIT, Place("", [], Wait)) && CoreAt(cfg, INIT, Place("", [], Wait)) && PlaceText(Place("", [], Wait)) == ""
  {
    assert Kinds([]) + Inner(Wait) == [];
  }

  lemma RunLast(cfg: Config, body: string)
    requires body != ""
    ensures var n := |body| - 1; Run(cfg, INIT, 0, body) == Step(cfg, Run(cfg, INIT, 0, body[..n]), n, body[n])
  {
    hide Step;
    var n := |body| - 1;
    assert body == body[..n] + [body[n]];
    RunAppend(cfg, INIT, 0, body[..n], [body[n]]);
    var s := Run(cfg, INIT, 0, body[..n]);
    assert [body[n]][1..] == "";
    assert Run(cfg, s, n, [body[n]]) == Run(cfg, Step(cfg, s, n, body[n]), n + 1, "");
  }

  /** Every byte taken, the body is the text of the part the scan stands at; else one was refused. */
  lemma {:induction false} RunTold(cfg: Config, body: string)
    ensures var s := Run(cfg, INIT, 0, body);
            if Alive(s) then exists p: Place :: StandsAt(s, p) && PlaceText(p) == body && (!p.tail.Whole? ==> CoreAt(cfg, s, p))
            else exists n: nat, p: Place :: RefusedAt(cfg, body, n, p, s.core.why)
    decreases |body|
  {
    hide Step, Run, StandsAt, CoreAt, PlaceText, Reason, Named, PlaceOk, Onward;
    if body == "" {
      RunNothing(cfg);
      StartStands(cfg);
    } else {
      var n := |body| - 1;
      var before, s := body[..n], Run(cfg, INIT, 0, body[..n]);
      RunTold(cfg, before);
      RunLast(cfg, body);
      assert body == before + [body[n]];
      if Alive(s) {
        var p: Place :| StandsAt(s, p) && PlaceText(p) == before && (!p.tail.Whole? ==> CoreAt(cfg, s, p));
        StepReason(cfg, s, n, body[n], p);
        if Alive(Step(cfg, s, n, body[n])) {
          StepStands(cfg, s, n, body[n], p);
        } else {
          StandsOk(s, p);
          assert RefusedAt(cfg, body, n, p, Step(cfg, s, n, body[n]).core.why);
        }
      } else {
        var k: nat, p: Place :| RefusedAt(cfg, before, k, p, s.core.why);
        assert body[..k] == before[..k];
        DeadStays(cfg, s, n, body[n]);
        assert RefusedAt(cfg, body, k, p, s.core.why);
      }
    }
  }

  lemma RunNothing(cfg: Config)
    ensures Run(cfg, INIT, 0, "") == INIT
  {}

  lemma DeadStays(cfg: Config, s: Scan, i: nat, c: char)
    requires !Alive(s)
    ensures Step(cfg, s, i, c) == s
  {}

  /** For every configuration and body: no reason exactly if it is one JSON text that fits the rules;
      `EndsInside` only if it is not, and is the text of a part of a tree to its last byte; any other
      only if the bytes before some byte are the text of a part of a tree, at which that byte is refused
      with this very reason. */
  lemma ReasonIs(cfg: Config, body: string)
    ensures var why := Verdict(cfg, body).core.why;
            && (why == Good <==> Acceptable(cfg, body))
            && (why == EndsInside ==> exists p: Place :: PlaceOk(p) && PlaceText(p) == body)
            && (why != Good && why != EndsInside ==> exists n: nat, p: Place :: RefusedAt(cfg, body, n, p, why))
  {
    hide Run, Acceptable, StandsAt, PlaceText, Reason, PlaceOk, CoreAt;
    var s := Run(cfg, INIT, 0, body);
    DoneExactly(cfg, body);
    RunTold(cfg, body);
    if Alive(s) {
      var p: Place :| StandsAt(s, p) && PlaceText(p) == body;
      StandsOk(s, p);
    } else {
      var n: nat, p: Place :| RefusedAt(cfg, body, n, p, s.core.why);
      NeverEnds(cfg, p, body[n]);
    }
  }

  lemma NeverEnds(cfg: Config, p: Place, c: char)
    ensures Reason(cfg, p, c) != EndsInside && Reason(cfg, p, c) != Good
  {
    hide StringBody, GoesOn, Masked, UnderOptions, DueKey;
  }

  /** A body cut short: every part of an acceptable one that is not acceptable itself ends inside. */
  lemma CutShort(cfg: Config, body: string, more: string)
    requires Acceptable(cfg, body + more) && !Acceptable(cfg, body)
    ensures Verdict(cfg, body).core.why == EndsInside
  {
    hide Run, Acceptable;
    DoneExactly(cfg, body);
    DoneExactly(cfg, body + more);
    RunAppend(cfg, INIT, 0, body, more);
    var s := Run(cfg, INIT, 0, body);
    if !Alive(s) { RunRefused(cfg, s, |body|, more); }
  }

  /** A refusal is decided by the byte refused: whatever follows, the reason stays. */
  lemma ReasonStays(cfg: Config, body: string, more: string)
    requires Verdict(cfg, body).core.why != Good && Verdict(cfg, body).core.why != EndsInside
    ensures Verdict(cfg, body + more).core.why == Verdict(cfg, body).core.why
  {
    hide Run;
    RunAppend(cfg, INIT, 0, body, more);
    var s := Run(cfg, INIT, 0, body);
    if !Alive(s) { RunRefused(cfg, s, |body|, more); }
  }

  /** The reasons the client is told about its keys for (the text names one). */
  predicate NamesKeys(why: Why) { why == EscapedKey || why == RepeatedKey || why == TooManyKeys }

  /** Only a checked key just closed is refused for a reason about keys: one written with a backslash, one
      equal to an earlier key of its object, or one after 256 others. */
  lemma KeysNamed(cfg: Config, body: string)
    requires NamesKeys(Verdict(cfg, body).core.why)
    ensures exists n: nat, p: Place ::
              && n < |body| && body[n] == '"' && PlaceOk(p) && PlaceText(p) == body[..n] && p.tail.InKey?
              && (p.frames == [] || (cfg.allKeys && |p.frames| == 1 && UnderOptions(p)))
              && match Verdict(cfg, body).core.why
                 case EscapedKey => '\\' in p.tail.word
                 case RepeatedKey => p.tail.word in KeysOf(p.tail.members) && (cfg.allKeys || p.tail.word == "model" || Masked(cfg, p.tail.word))
                 case _ => cfg.allKeys && |p.tail.members| == 256
  {
    hide Verdict, PlaceText, PlaceOk, StringBody, GoesOn, Masked, UnderOptions, DueKey, Acceptable;
    ReasonIs(cfg, body);
    var n: nat, p: Place :| RefusedAt(cfg, body, n, p, Verdict(cfg, body).core.why);
    assert p.tail.InKey? && body[n] == '"';
  }
}
