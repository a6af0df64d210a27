/** The members of the root object, where keys are checked and spans are tracked. */
module ScanRoot {
  import opened Json
  import opened Options
  import opened Automaton
  import opened ScanGrammar
  import opened ScanRules

  // ---------------------------------------------------------------- what one member does

  /** The tracking state after a root key whose quote is at `i`. */
  function KeyCore(cfg: Config, c: Core, i: nat, key: string): Core {
    KeyModel(cfg, KeyHold(cfg, HoldKey(c, 1, i), 1, key), 1, key)
      .(optionsNext := cfg.allKeys && key == "stream_options")
  }

  /** The tracking state after a root member's value at `at`. */
  function ValueCore(cfg: Config, c: Core, at: nat, v: Value): Core {
    Settle(cfg, StartValue(cfg, c, 1, at, First(v)), 1, at + |Text(v)|)
  }

  function MemberCore(cfg: Config, c: Core, at: nat, m: Member): Core {
    ValueCore(cfg, KeyCore(cfg, c, at + |m.pre|, m.key), at + |MemberHead(m)|, m.value)
  }

  /** The state before a root member: nothing open, and the separator held if members are spliced. */
  predicate Settled(cfg: Config, c: Core) {
    && c.why == Good && c.optionsDepth == 0 && !c.optionsNext && c.model.Idle? && c.pending.NoMember?
    && (c.marks.hold.Some? <==> cfg.mask != {})
  }

  /** `s` is before the k-th root member, having read the ones before it. */
  predicate AtMember(cfg: Config, s: Scan, members: seq<Member>, k: nat)
    requires k <= |members|
  {
    && s.stack == [InObj] && s.word == "" && Settled(cfg, s.core)
    && (s.core.modelSeen <==> Earlier(members, k, "model"))
    && (forall f <- cfg.mask :: f in s.core.seen <==> Earlier(members, k, FieldKey(f)))
    && (cfg.allKeys ==> k <= MAX_KEYS && s.top == KeysOf(members[..k]))
    && (s.options == [] || Earlier(members, k, "stream_options"))
  }

  /** What the j-th key must be. */
  predicate KeyPart(cfg: Config, members: seq<Member>, j: nat)
    requires j < |members|
  {
    var key := members[j].key;
    && '\\' !in key
    && (key == "model" ==> !Earlier(members, j, key))
    && (forall f <- cfg.mask :: key == FieldKey(f) ==> !Earlier(members, j, key))
    && (cfg.allKeys ==> KeyFits(members, j))
  }

  /** What its value must be. */
  predicate ValuePart(cfg: Config, m: Member) {
    && (forall f <- cfg.mask :: m.key == FieldKey(f) ==> m.value.Str?)
    && (cfg.allKeys && m.key == "stream_options" && m.value.Obj? ==> KeysFit(m.value.members))
  }

  lemma PartsFit(cfg: Config, members: seq<Member>, j: nat)
    requires j < |members|
    ensures MemberFits(cfg, members, j) <==> KeyPart(cfg, members, j) && ValuePart(cfg, members[j])
  {
    hide KeyFits, Earlier, KeysFit;
  }

  lemma FieldNames(f: Field, key: string)
    ensures FieldOf(key) == Some(f) <==> key == FieldKey(f)
  {}

  // ---------------------------------------------------------------- keys

  lemma RootKeyHold(cfg: Config, s: Scan, i: nat, members: seq<Member>, k: nat)
    requires k < |members| && AtMember(cfg, s, members, k)
    ensures var c := KeyHold(cfg, HoldKey(s.core, 1, i), 1, members[k].key);
            && (c.why == Good <==> forall f <- cfg.mask :: members[k].key == FieldKey(f) ==> !Earlier(members, k, members[k].key))
            && c.modelSeen == s.core.modelSeen && !c.optionsNext
  {
    hide Earlier, KeysOf;
    var key := members[k].key;
    forall f: Field { FieldNames(f, key); }
  }

  lemma {:induction false} RootKey(cfg: Config, s: Scan, i: nat, members: seq<Member>, k: nat)
    requires k < |members| && AtMember(cfg, s, members, k)
    ensures var t := AbsorbKey(cfg, s, i, members[k].key);
            && (Alive(t) <==> KeyPart(cfg, members, k))
            && (Alive(t) ==> t == s.(st := Colon, core := KeyCore(cfg, s.core, i, members[k].key),
                                     top := if cfg.allKeys then KeysOf(members[..k + 1]) else s.top))
  {
    hide KeyHold, HoldKey, KeysOf;
    RootKeyHold(cfg, s, i, members, k);
    KeysOfPrefix(members, k);
  }

  /** After a root key: what the value will be held to. */
  predicate AtRootValue(cfg: Config, c: Core, key: string) {
    && c.why == Good && c.optionsDepth == 0 && (c.optionsNext <==> cfg.allKeys && key == "stream_options")
    && !c.model.ModelOpen? && !c.pending.MemberOpen?
    && (c.model.ModelNext? ==> key == "model")
    && (c.pending.MemberNext? <==> exists f <- cfg.mask :: key == FieldKey(f))
    && (c.marks.hold.Some? <==> c.pending.MemberNext?)
  }

  lemma KeyCoreShape(cfg: Config, c: Core, i: nat, key: string)
    requires Settled(cfg, c) && KeyCore(cfg, c, i, key).why == Good
    ensures AtRootValue(cfg, KeyCore(cfg, c, i, key), key)
  {
    forall f: Field { FieldNames(f, key); }
  }

  // ---------------------------------------------------------------- values

  /** What is tracked about a value is settled at its first byte. */
  lemma StartTwice(cfg: Config, c: Core, at: nat, v: Value)
    requires c.why == Good && !c.model.ModelOpen? && !c.pending.MemberOpen? && c.optionsDepth == 0
    ensures var d := StartValue(cfg, c, 1, at, First(v));
            && (d.why == Good <==> (cfg.mask != {} && c.pending.MemberNext? ==> First(v) == '"'))
            && (d.why == Good ==> StartValue(cfg, d, 1, at, First(v)) == d && !d.optionsNext)
            && (d.why == Good && (c.pending.MemberNext? ==> cfg.mask != {}) ==> Quiet(d, 1))
  {}

  lemma PlainValue(cfg: Config, s: Scan, at: nat, v: Value, key: string)
    requires Expects(s) && s.stack == [InObj] && AtRootValue(cfg, s.core, key) && ValueOk(v)
    requires !(s.core.optionsNext && v.Obj?)
    ensures var t := Absorb(cfg, s, at, v);
            && (Alive(t) <==> 1 + Depth(v) <= MAX_DEPTH && (s.core.pending.MemberNext? ==> v.Str?))
            && (Alive(t) ==> t == s.(st := ObjNext, core := ValueCore(cfg, s.core, at, v)))
  {
    hide AbsorbRest, StartValue, Settle, Depth;
    var d := StartValue(cfg, s.core, 1, at, First(v));
    StartTwice(cfg, s.core, at, v);
    assert First(v) == '"' <==> v.Str?;
    if d.why == Good {
      var u := s.(core := d);
      assert Begin(cfg, u, at, First(v)) == Begin(cfg, s, at, First(v)) by { BeginAgain(cfg, s, at, v); }
      assert Absorb(cfg, s, at, v) == Absorb(cfg, u, at, v);
      hide Absorb;
      AbsorbQuiet(cfg, u, at, v);
    }
  }

  lemma BeginAgain(cfg: Config, s: Scan, at: nat, v: Value)
    requires s.stack == [InObj] && Alive(s) && ValueOk(v) && !(s.core.optionsNext && v.Obj?)
    requires var d := StartValue(cfg, s.core, 1, at, First(v));
             d.why == Good && !d.optionsNext && StartValue(cfg, d, 1, at, First(v)) == d
    ensures Begin(cfg, s.(core := StartValue(cfg, s.core, 1, at, First(v))), at, First(v)) == Begin(cfg, s, at, First(v))
  {
    hide StartValue;
    assert First(v) == '{' <==> v.Obj?;
  }

  lemma OptionsBegin(cfg: Config, s: Scan, at: nat)
    requires Expects(s) && s.stack == [InObj] && AtRootValue(cfg, s.core, "stream_options") && s.core.optionsNext
    ensures var b := Begin(cfg, s, at, '{');
            && AtOption(cfg, b) && b.options == s.options
            && b == s.(st := ObjFirst, stack := [InObj, InObj],
                       core := StartValue(cfg, s.core, 1, at, '{').(optionsDepth := 2))
  {
    assert !s.core.pending.MemberNext?;
    assert [InObj] + [InObj] == [InObj, InObj];
  }

  lemma OptionsClose(cfg: Config, s: Scan, b: Scan, at: nat, v: Value, inside: nat)
    requires s.stack == [InObj] && AtRootValue(cfg, s.core, "stream_options") && v.Obj? && |Text(v)| == inside + 2
    requires Alive(b) && b == s.(st := ObjFirst, stack := [InObj, InObj], options := b.options,
                                 core := StartValue(cfg, s.core, 1, at, '{').(optionsDepth := 2))
    ensures Close(cfg, b, at + 1 + inside)
            == s.(st := ObjNext, core := ValueCore(cfg, s.core, at, v), options := b.options)
  {
    hide Text, Settle;
    assert b.stack[..1] == [InObj];
    assert !s.core.pending.MemberNext?;
    assert StartValue(cfg, s.core, 1, at, '{').optionsDepth == 0;
  }

  /** The object under `stream_options`, whose keys are checked. */
  lemma OptionsValue(cfg: Config, s: Scan, at: nat, v: Value)
    requires Expects(s) && s.stack == [InObj] && AtRootValue(cfg, s.core, "stream_options") && ValueOk(v)
    requires s.core.optionsNext && v.Obj? && s.options == []
    ensures var t := Absorb(cfg, s, at, v);
            && (Alive(t) <==> 1 + Depth(v) <= MAX_DEPTH && KeysFit(v.members))
            && (Alive(t) ==> t == s.(st := ObjNext, core := ValueCore(cfg, s.core, at, v), options := KeysOf(v.members)))
  {
    hide AbsorbMembers, Close, MembersText, Begin, ValueCore;
    var b, ms := Begin(cfg, s, at, '{'), v.members;
    OptionsBegin(cfg, s, at);
    if ms == [] {
      assert KeysOf(ms) == [];
      OptionsClose(cfg, s, b, at, v, |v.gap|);
    } else {
      assert ms[0..] == ms && KeysOf(ms[..0]) == [];
      OptionMembers(cfg, b, at + 1, ms, 0);
      OptionsClose(cfg, s, b.(options := KeysOf(ms)), at, v, |MembersText(ms)|);
    }
  }

  /** A root member's value: refused by depth, by what the mask asks, or by the keys of stream_options. */
  lemma RootValue(cfg: Config, s: Scan, at: nat, m: Member)
    requires Expects(s) && s.stack == [InObj] && AtRootValue(cfg, s.core, m.key) && ValueOk(m.value)
    requires s.core.optionsNext ==> s.options == []
    ensures var t := Absorb(cfg, s, at, m.value);
            && (Alive(t) <==> 1 + Depth(m.value) <= MAX_DEPTH && ValuePart(cfg, m))
            && (Alive(t) ==> t == s.(st := ObjNext, core := ValueCore(cfg, s.core, at, m.value), options := t.options))
            && (Alive(t) && !s.core.optionsNext ==> t.options == s.options)
  {
    hide Absorb, ValueCore, Depth, KeysFit;
    if s.core.optionsNext && m.value.Obj? {
      OptionsValue(cfg, s, at, m.value);
    } else {
      PlainValue(cfg, s, at, m.value, m.key);
    }
  }

  lemma ValueCoreShape(cfg: Config, c: Core, at: nat, v: Value, key: string)
    requires AtRootValue(cfg, c, key) && (c.pending.MemberNext? ==> v.Str?)
    ensures var d := ValueCore(cfg, c, at, v);
            && d.why == Good && d.optionsDepth == 0 && !d.optionsNext && d.model.Idle? && d.pending.NoMember?
            && d.marks.hold.None? && d.modelSeen == c.modelSeen && d.seen == c.seen
  {}

  // ---------------------------------------------------------------- members

  /** The k-th root member leaves `t`. */
  predicate MemberRead(cfg: Config, s: Scan, t: Scan, at: nat, members: seq<Member>, k: nat)
    requires k < |members|
  {
    && Alive(t) && t.st == ObjNext && t.stack == [InObj] && t.word == ""
    && t.core == MemberCore(cfg, s.core, at, members[k])
    && t.top == (if cfg.allKeys then KeysOf(members[..k + 1]) else s.top)
    && ((cfg.allKeys && members[k].key == "stream_options") || t.options == s.options)
    && KeyCore(cfg, s.core, at + |members[k].pre|, members[k].key).why == Good
  }

  lemma ReadMember(cfg: Config, s: Scan, at: nat, members: seq<Member>, k: nat)
    requires k < |members| && AtMember(cfg, s, members, k) && MemberOk(members[k])
    ensures var t := AbsorbMember(cfg, s, at, members[k]);
            && (Alive(t) <==> KeyPart(cfg, members, k) && ValuePart(cfg, members[k]) &&
                              1 + Depth(members[k].value) <= MAX_DEPTH)
            && (Alive(t) ==> MemberRead(cfg, s, t, at, members, k))
  {
    hide Absorb, AbsorbKey, Depth, ValuePart, KeyPart, KeyCore, ValueCore, AtRootValue, MemberHead, Settled, KeysOf, Earlier;
    var m := members[k];
    RootKey(cfg, s, at + |m.pre|, members, k);
    var key := AbsorbKey(cfg, s, at + |m.pre|, m.key);
    if !Alive(key) {
      AbsorbDead(cfg, key, at + |MemberHead(m)|, m.value);
      return;
    }
    KeyCoreShape(cfg, s.core, at + |m.pre|, m.key);
    OptionsFresh(cfg, s, at + |m.pre|, members, k);
    RootValue(cfg, Await(key), at + |MemberHead(m)|, m);
  }

  /** The k-th root member is refused exactly when it breaks a rule. */
  lemma RootMember(cfg: Config, s: Scan, at: nat, members: seq<Member>, k: nat)
    requires k < |members| && AtMember(cfg, s, members, k) && MemberOk(members[k])
    ensures var t := AbsorbMember(cfg, s, at, members[k]);
            && (Alive(t) <==> MemberFits(cfg, members, k) && 1 + Depth(members[k].value) <= MAX_DEPTH)
            && (Alive(t) ==> t.st == ObjNext && t.stack == [InObj] && t.core == MemberCore(cfg, s.core, at, members[k]))
            && (Alive(t) ==> forall j :: AtMember(cfg, Comma(cfg, t, j), members, k + 1))
  {
    hide AbsorbMember, Depth, MemberFits, ValuePart, KeyPart, KeyCore, ValueCore, AtMember, MemberCore;
    PartsFit(cfg, members, k);
    ReadMember(cfg, s, at, members, k);
    var t := AbsorbMember(cfg, s, at, members[k]);
    if Alive(t) {
      forall j ensures AtMember(cfg, Comma(cfg, t, j), members, k + 1) {
        NextMember(cfg, s, t, at, members, k, j);
      }
    }
  }

  lemma OptionsFresh(cfg: Config, s: Scan, i: nat, members: seq<Member>, k: nat)
    requires k < |members| && AtMember(cfg, s, members, k) && KeyPart(cfg, members, k)
    ensures KeyCore(cfg, s.core, i, members[k].key).optionsNext ==> s.options == []
  {
    hide KeyHold, HoldKey, KeyModel, KeysOf;
  }

  lemma KeyCoreSeen(cfg: Config, c: Core, i: nat, key: string)
    requires KeyCore(cfg, c, i, key).why == Good && c.why == Good
    ensures var d := KeyCore(cfg, c, i, key);
            && (d.modelSeen <==> c.modelSeen || key == "model")
            && (forall f <- cfg.mask :: f in d.seen <==> f in c.seen || key == FieldKey(f))
  {
    forall f: Field { FieldNames(f, key); }
  }

  lemma NextMember(cfg: Config, s: Scan, t: Scan, at: nat, members: seq<Member>, k: nat, j: nat)
    requires k < |members| && AtMember(cfg, s, members, k) && KeyPart(cfg, members, k) && ValuePart(cfg, members[k])
    requires MemberRead(cfg, s, t, at, members, k)
    ensures AtMember(cfg, Comma(cfg, t, j), members, k + 1)
  {
    hide KeyCore, ValueCore, MemberHead, KeysOf, KeysFit;
    var m := members[k];
    var c := KeyCore(cfg, s.core, at + |m.pre|, m.key);
    KeyCoreShape(cfg, s.core, at + |m.pre|, m.key);
    ValueCoreShape(cfg, c, at + |MemberHead(m)|, m.value, m.key);
    KeyCoreSeen(cfg, s.core, at + |m.pre|, m.key);
    KeysOfPrefix(members, k);
  }

  predicate FitFrom(cfg: Config, members: seq<Member>, k: nat) {
    forall j: nat | k <= j < |members| :: MemberFits(cfg, members, j)
  }

  /** The tracking state after the members from the k-th on, each with the comma before it. */
  function MembersCore(cfg: Config, c: Core, at: nat, members: seq<Member>): Core
    requires members != []
    decreases |members|
  {
    var d, j := MemberCore(cfg, c, at, members[0]), at + |MemberText(members[0])|;
    if |members| == 1 then d else MembersCore(cfg, HoldComma(cfg, d, 1, j), j + 1, members[1..])
  }

  lemma FitFromNext(cfg: Config, members: seq<Member>, k: nat)
    requires k < |members|
    ensures FitFrom(cfg, members, k) <==> MemberFits(cfg, members, k) && FitFrom(cfg, members, k + 1)
  {
    hide MemberFits;
  }

  /** The root object is refused exactly when a member breaks a rule or nests too deep. */
  lemma {:induction false} RootMembers(cfg: Config, s: Scan, at: nat, members: seq<Member>, k: nat)
    requires k < |members| && AtMember(cfg, s, members, k) && (forall m <- members :: MemberOk(m))
    ensures var t := AbsorbMembers(cfg, s, at, members[k..]);
            && (Alive(t) <==> FitFrom(cfg, members, k) && 1 + MembersDepth(members[k..]) <= MAX_DEPTH)
            && (Alive(t) ==> t.core == Settle(cfg, LeaveOptions(MembersCore(cfg, s.core, at, members[k..]), 0), 0,
                                              at + |MembersText(members[k..])| + 1))
    decreases |members| - k
  {
    hide AbsorbMember, MemberFits, FitFrom, Settle, MemberCore, AtMember, HoldComma, LeaveOptions, MemberText, Depth;
    var m, rest := members[k], members[k + 1..];
    assert members[k..][0] == m && members[k..][1..] == rest && MemberOk(m);
    RootMember(cfg, s, at, members, k);
    FitFromNext(cfg, members, k);
    var t, j := AbsorbMember(cfg, s, at, m), at + |MemberText(m)|;
    if !Alive(t) {
      if rest != [] { MembersRefused(cfg, t, j + 1, rest); }
    } else if rest == [] {
      assert FitFrom(cfg, members, k + 1) by { FitNone(cfg, members); }
    } else {
      RootMembers(cfg, Comma(cfg, t, j), j + 1, members, k + 1);
    }
  }

  lemma FitNone(cfg: Config, members: seq<Member>)
    ensures FitFrom(cfg, members, |members|)
  {}
}
