/** Which trees the automaton accepts: nesting, the rules on the keys of the root object and of
    `stream_options`, and what a policy's members ask of the body.
 */
module ScanRules {
  import opened Json
  import opened Options
  import opened Automaton
  import opened ScanGrammar

  // ---------------------------------------------------------------- the rules

  /** Some member before the j-th has this key. */
  predicate Earlier(members: seq<Member>, j: nat, key: string)
    requires j <= |members|
  {
    exists i: nat | i < j :: members[i].key == key
  }

  /** The j-th key is unescaped, new, and among the first 256. */
  predicate KeyFits(members: seq<Member>, j: nat)
    requires j < |members|
  {
    '\\' !in members[j].key && j < MAX_KEYS && !Earlier(members, j, members[j].key)
  }

  predicate KeysFit(members: seq<Member>) { forall j: nat | j < |members| :: KeyFits(members, j) }

  /** The rules on the j-th member of the root object. */
  predicate MemberFits(cfg: Config, members: seq<Member>, j: nat)
    requires j < |members|
  {
    var m := members[j];
    && '\\' !in m.key
    && (m.key == "model" ==> !Earlier(members, j, m.key))
    && (forall f <- cfg.mask :: m.key == FieldKey(f) ==> !Earlier(members, j, m.key) && m.value.Str?)
    && (cfg.allKeys ==> KeyFits(members, j) && (m.key == "stream_options" && m.value.Obj? ==> KeysFit(m.value.members)))
  }

  /** Everything a scan under `cfg` asks of the root value, beyond the grammar. */
  predicate Fits(cfg: Config, v: Value) {
    && Depth(v) <= MAX_DEPTH
    && (cfg.mask != {} ==> v.Obj?)
    && (v.Obj? ==> forall j: nat | j < |v.members| :: MemberFits(cfg, v.members, j))
  }

  // ---------------------------------------------------------------- values below the root's members

  /** Nothing about the next value is tracked, and no key inside it is checked. */
  predicate Quiet(c: Core, depth: nat) {
    && !c.optionsNext && !c.model.ModelNext? && !c.pending.MemberNext?
    && depth >= 1 && (c.optionsDepth == 0 || (c.optionsDepth == 2 && depth >= 2))
  }

  lemma QuietBegin(cfg: Config, s: Scan, at: nat, v: Value)
    requires Alive(s) && Expects(s) && Quiet(s.core, |s.stack|) && ValueOk(v)
    ensures var b := Begin(cfg, s, at, First(v));
            if (v.Arr? || v.Obj?) && |s.stack| == MAX_DEPTH then !Alive(b)
            else Alive(b) && b.core == s.core && b.top == s.top && b.options == s.options
  {}

  lemma QuietClose(cfg: Config, s: Scan, b: Scan, i: nat, kind: Kind)
    requires Alive(s) && Alive(b) && Quiet(s.core, |s.stack|) && b.core == s.core && b.stack == s.stack + [kind]
    requires b.word == s.word && b.top == s.top && b.options == s.options
    ensures Close(cfg, b, i) == ValueDone(cfg, s, i + 1)
  {
    hide Settle;
    assert b.stack[..|b.stack| - 1] == s.stack;
  }

  /** A value nothing tracks is refused exactly when it nests too deep, and else only closes. */
  lemma {:induction false} AbsorbQuiet(cfg: Config, s: Scan, at: nat, v: Value)
    requires Alive(s) && Expects(s) && Quiet(s.core, |s.stack|) && |s.stack| <= MAX_DEPTH && ValueOk(v)
    ensures Alive(Absorb(cfg, s, at, v)) <==> |s.stack| + Depth(v) <= MAX_DEPTH
    ensures Alive(Absorb(cfg, s, at, v)) ==> Absorb(cfg, s, at, v) == ValueDone(cfg, s, at + |Text(v)|)
    decreases v, 1
  {
    hide Begin, Settle, AbsorbRest, Depth;
    QuietBegin(cfg, s, at, v);
    var b := Begin(cfg, s, at, First(v));
    if !Alive(b) {
      assert Depth(v) > 0 by { ContainerDepth(v); }
      return;
    }
    BeginShape(cfg, s, at, v);
    if v.Arr? || v.Obj? {
      QuietInside(cfg, s, b, at, v);
    } else {
      assert Depth(v) == 0 by { ContainerDepth(v); }
      assert AbsorbRest(cfg, b, at, v) == ValueDone(cfg, b, at + |Text(v)|) by { ScalarRest(cfg, b, at, v); }
    }
  }

  lemma ContainerDepth(v: Value)
    ensures Depth(v) > 0 <==> v.Arr? || v.Obj?
  {}

  lemma ScalarRest(cfg: Config, b: Scan, at: nat, v: Value)
    requires !v.Arr? && !v.Obj?
    ensures AbsorbRest(cfg, b, at, v) == ValueDone(cfg, b, at + |Text(v)|)
  {
    hide ValueDone, Text;
  }

  lemma {:induction false} QuietInside(cfg: Config, s: Scan, b: Scan, at: nat, v: Value)
    requires Alive(s) && s.word == "" && Quiet(s.core, |s.stack|) && |s.stack| < MAX_DEPTH
    requires ValueOk(v) && (v.Arr? || v.Obj?)
    requires b == s.(stack := s.stack + [if v.Arr? then InArr else InObj], st := if v.Arr? then ArrFirst else ObjFirst)
    ensures var t := AbsorbRest(cfg, b, at, v);
            && (Alive(t) <==> |s.stack| + Depth(v) <= MAX_DEPTH)
            && (Alive(t) ==> t == ValueDone(cfg, s, at + |Text(v)|))
    decreases v, 0
  {
    hide ValueDone, Close, AbsorbItems, AbsorbMembers, ItemsText, MembersText;
    match v {
      case Arr(gap, items) =>
        if items == [] { QuietClose(cfg, s, b, at + 1 + |gap|, InArr); }
        else { ItemsQuiet(cfg, s, b, at + 1, items); }
      case Obj(gap, members) =>
        if members == [] { QuietClose(cfg, s, b, at + 1 + |gap|, InObj); }
        else { MembersQuiet(cfg, s, b, at + 1, members); }
    }
  }

  /** A value two or more levels down only moves the state. */
  lemma DeepDone(cfg: Config, s: Scan, end: nat)
    requires |s.stack| >= 2
    ensures ValueDone(cfg, s, end) == s.(st := AfterValue(s.stack))
  {}

  lemma {:induction false} ItemsQuiet(cfg: Config, s: Scan, b: Scan, at: nat, items: seq<Item>)
    requires Alive(s) && s.word == "" && Quiet(s.core, |s.stack|) && |s.stack| < MAX_DEPTH
    requires items != [] && (forall it <- items :: ItemOk(it))
    requires b == s.(stack := s.stack + [InArr], st := b.st) && Expects(b)
    ensures var t := AbsorbItems(cfg, b, at, items);
            && (Alive(t) <==> |s.stack| + 1 + ItemsDepth(items) <= MAX_DEPTH)
            && (Alive(t) ==> t == ValueDone(cfg, s, at + |ItemsText(items)| + 1))
    decreases items
  {
    hide Absorb, Settle, Close;
    var it := items[0];
    assert ItemOk(it);
    AbsorbQuiet(cfg, b, at + |it.pre|, it.value);
    var t, j := Absorb(cfg, b, at + |it.pre|, it.value), at + |ItemText(it)|;
    if Alive(t) {
      DeepDone(cfg, b, at + |it.pre| + |Text(it.value)|);
      if |items| == 1 {
        QuietClose(cfg, s, t, j, InArr);
      } else {
        ItemsQuiet(cfg, s, Await(t), j + 1, items[1..]);
      }
    } else if |items| > 1 {
      ItemsRefused(cfg, t, j + 1, items[1..]);
    } else {
      CloseRefused(cfg, t, j);
    }
  }

  lemma CloseRefused(cfg: Config, t: Scan, j: nat)
    requires !Alive(t)
    ensures Close(cfg, t, j) == t
  {}

  lemma QuietKey(cfg: Config, b: Scan, i: nat, key: string)
    requires Alive(b) && |b.stack| >= 2 && b.word == "" && !Tracked(b.core, |b.stack|)
    ensures AbsorbKey(cfg, b, i, key) == b.(st := Colon)
  {}

  lemma {:induction false} MembersQuiet(cfg: Config, s: Scan, b: Scan, at: nat, members: seq<Member>)
    requires Alive(s) && s.word == "" && Quiet(s.core, |s.stack|) && |s.stack| < MAX_DEPTH
    requires members != [] && (forall m <- members :: MemberOk(m))
    requires b == s.(stack := s.stack + [InObj], st := b.st)
    ensures var t := AbsorbMembers(cfg, b, at, members);
            && (Alive(t) <==> |s.stack| + 1 + MembersDepth(members) <= MAX_DEPTH)
            && (Alive(t) ==> t == ValueDone(cfg, s, at + |MembersText(members)| + 1))
    decreases members
  {
    hide Absorb, Settle, Close, AbsorbKey, MemberHead;
    var m := members[0];
    assert MemberOk(m);
    QuietKey(cfg, b, at + |m.pre|, m.key);
    var q := Await(AbsorbKey(cfg, b, at + |m.pre|, m.key));
    AbsorbQuiet(cfg, q, at + |MemberHead(m)|, m.value);
    var t, j := AbsorbMember(cfg, b, at, m), at + |MemberText(m)|;
    if Alive(t) {
      DeepDone(cfg, q, at + |MemberHead(m)| + |Text(m.value)|);
      if |members| == 1 {
        QuietClose(cfg, s, t, j, InObj);
      } else {
        assert Comma(cfg, t, j) == t.(st := ObjKey);
        MembersQuiet(cfg, s, Comma(cfg, t, j), j + 1, members[1..]);
      }
    } else if |members| > 1 {
      MembersRefused(cfg, t, j + 1, members[1..]);
    } else {
      CloseRefused(cfg, t, j);
    }
  }

  // ---------------------------------------------------------------- the keys of stream_options

  lemma KeysOfPrefix(members: seq<Member>, k: nat)
    requires k < |members|
    ensures forall key :: key in KeysOf(members[..k]) <==> Earlier(members, k, key)
    ensures KeysOf(members[..k + 1]) == KeysOf(members[..k]) + [members[k].key]
    ensures forall key :: Earlier(members, k + 1, key) <==> Earlier(members, k, key) || key == members[k].key
  {
    forall key ensures key in KeysOf(members[..k]) <==> Earlier(members, k, key) {
      if Earlier(members, k, key) {
        var i: nat :| i < k && members[i].key == key;
        assert KeysOf(members[..k])[i] == key;
      }
    }
    forall key ensures Earlier(members, k + 1, key) <==> Earlier(members, k, key) || key == members[k].key {
      if key == members[k].key { assert members[k].key == key; }
    }
  }

  /** The state between the members of `stream_options`. */
  predicate AtOption(cfg: Config, b: Scan) {
    && Alive(b) && b.word == "" && |b.stack| == 2 && b.stack[1].InObj? && cfg.allKeys
    && b.core.optionsDepth == 2 && b.core.marks.hold.None? && Quiet(b.core, 2)
  }

  lemma OptionKey(cfg: Config, b: Scan, i: nat, key: string)
    requires AtOption(cfg, b)
    ensures var t := AbsorbKey(cfg, b, i, key);
            if '\\' !in key && |b.options| != MAX_KEYS && key !in b.options
            then t == b.(st := Colon, options := b.options + [key]) else !Alive(t)
  {}

  lemma OptionMember(cfg: Config, b: Scan, at: nat, members: seq<Member>, k: nat)
    requires AtOption(cfg, b) && k < |members| && MemberOk(members[k])
    requires k <= MAX_KEYS && b.options == KeysOf(members[..k])
    ensures var t := AbsorbMember(cfg, b, at, members[k]);
            && (Alive(t) <==> KeyFits(members, k) && 2 + Depth(members[k].value) <= MAX_DEPTH)
            && (Alive(t) ==> k < MAX_KEYS && t == b.(st := ObjNext, options := KeysOf(members[..k + 1])))
  {
    hide Absorb, AbsorbKey, MemberHead, Quiet;
    var m := members[k];
    KeysOfPrefix(members, k);
    OptionKey(cfg, b, at + |m.pre|, m.key);
    var key := AbsorbKey(cfg, b, at + |m.pre|, m.key);
    if Alive(key) {
      var q := Await(key);
      AbsorbQuiet(cfg, q, at + |MemberHead(m)|, m.value);
      DeepDone(cfg, q, at + |MemberHead(m)| + |Text(m.value)|);
    } else {
      assert AbsorbMember(cfg, b, at, m) == key by { AbsorbDead(cfg, key, at + |MemberHead(m)|, m.value); }
    }
  }

  lemma FitsFrom(members: seq<Member>, k: nat)
    requires k < |members|
    ensures (forall j: nat | k <= j < |members| :: KeyFits(members, j))
            <==> KeyFits(members, k) && (forall j: nat | k + 1 <= j < |members| :: KeyFits(members, j))
  {
    hide KeyFits;
  }

  lemma {:induction false} OptionMembers(cfg: Config, b: Scan, at: nat, members: seq<Member>, k: nat)
    requires AtOption(cfg, b) && (forall m <- members :: MemberOk(m))
    requires k < |members| && k <= MAX_KEYS && b.options == KeysOf(members[..k])
    ensures var t := AbsorbMembers(cfg, b, at, members[k..]);
            && (Alive(t) <==> (forall j: nat | k <= j < |members| :: KeyFits(members, j)) &&
                              2 + MembersDepth(members[k..]) <= MAX_DEPTH)
            && (Alive(t) ==> t == Close(cfg, b.(options := KeysOf(members)), at + |MembersText(members[k..])|))
    decreases |members| - k
  {
    hide Absorb, Settle, Close, AbsorbMember, MemberText, KeyFits;
    var m, rest := members[k], members[k + 1..];
    assert members[k..][0] == m && members[k..][1..] == rest && MemberOk(m);
    OptionMember(cfg, b, at, members, k);
    FitsFrom(members, k);
    var t, j := AbsorbMember(cfg, b, at, m), at + |MemberText(m)|;
    if !Alive(t) {
      if rest == [] { CloseRefused(cfg, t, j); } else { MembersRefused(cfg, t, j + 1, rest); }
    } else if rest == [] {
      assert members[..k + 1] == members;
      CloseIgnoresState(cfg, t, b.(options := KeysOf(members)), j);
    } else {
      var c := Comma(cfg, t, j);
      assert c == t.(st := ObjKey);
      OptionMembers(cfg, c, j + 1, members, k + 1);
      CloseIgnoresState(cfg, c.(options := KeysOf(members)), b.(options := KeysOf(members)), j + 1 + |MembersText(rest)|);
    }
  }

  lemma CloseIgnoresState(cfg: Config, s: Scan, t: Scan, i: nat)
    requires Alive(s) && s.stack != [] && t == s.(st := t.st)
    ensures Close(cfg, s, i) == Close(cfg, t, i)
  {
    hide Settle;
  }
}
