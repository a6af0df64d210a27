/** What the safe point promises over a whole run: it only grows, it never enters an unfinished
    key, model value or member, and what lies before it is settled for good.
 */
module SafePoints {
  import opened Json
  import opened Options
  import opened Automaton

  /** Inside a scalar that is a value. */
  predicate InScalar(st: St) { !Between(st) && !Spelling(st) }

  predicate BeforeValue(st: St) { st.Colon? || st.Due? }

  // ---------------------------------------------------------------- invariants

  /** How the parts of the state go together. */
  predicate Shape(cfg: Config, s: Scan) {
    var c, m, depth := s.core, s.core.marks, |s.stack|;
    // a root scalar aside, every state but the first and the last is inside a container
    && (depth == 0 ==> s.st.Due? || s.st.End? || InScalar(s.st))
    && (depth == 0 && !s.st.End? ==>
          m.openAt.None? && !m.hasMember && m.found == [] && m.modelAt.None? && m.modelEnd.None?)
    && (s.st.End? ==> depth == 0 && m.hold.None?)
    // the keys of stream_options
    && (c.optionsNext ==> BeforeValue(s.st) && depth == 1 && c.model.Idle? && c.pending.NoMember?)
    && (c.optionsDepth != 0 ==> c.optionsDepth == 2 && depth >= 2 && c.model.Idle? && c.pending.NoMember?)
    // the model
    && (c.model.ModelNext? ==> BeforeValue(s.st) && depth == 1 && c.pending.NoMember?)
    && (c.model.ModelOpen? ==> depth >= 1 && (depth == 1 ==> InScalar(s.st)) && c.pending.NoMember?)
    && (c.model.Idle? ==> (m.modelAt.Some? <==> m.modelEnd.Some?))
    && (!c.model.Idle? || m.modelAt.Some? ==> c.modelSeen)
    && (!c.model.Idle? ==> m.modelEnd.None? && (m.modelAt.Some? <==> c.model.ModelOpen?))
    // a member the mask names
    && (c.pending.MemberNext? ==> BeforeValue(s.st) && depth == 1)
    && (c.pending.MemberOpen? ==> depth == 1 && InScalar(s.st))
    // why something is held
    && (m.hold.Some? ==>
          || (Spelling(s.st) && Tracked(c, depth)) || c.model.ModelOpen? || !c.pending.NoMember?
          || (cfg.mask != {} && depth == 1 && (s.st.ObjFirst? || s.st.ObjKey?)))
    // the root object under a mask: its first byte waits for its first key
    && (cfg.mask == {} ==> m.openAt.None? && !m.hasMember && c.pending.NoMember?)
    && (cfg.mask != {} && depth >= 1 ==> m.openAt.Some?)
    && (cfg.mask != {} && depth == 0 ==> s.st.Due? || (s.st.End? && m.openAt.Some?))
    && (m.openAt.Some? && !m.hasMember && !s.st.End? ==>
          m.hold == m.openAt && depth == 1 && (s.st.ObjFirst? || Spelling(s.st)))
  }

  /** Where the hold and the spans lie, `i` bytes having been read. */
  predicate Places(s: Scan, i: nat) {
    var c, m, safe := s.core, s.core.marks, Safe(s, i);
    && (m.hold.Some? ==> m.hold.value <= i)
    && (Spelling(s.st) ==> |s.word| < i)
    && (Spelling(s.st) && Tracked(c, |s.stack|) ==> m.hold.Some? && m.hold.value < i - |s.word|)
    && (c.model.ModelOpen? ==> m.modelAt.Some? && m.hold == m.modelAt && m.modelAt.value < i)
    && (m.modelEnd.Some? && m.modelAt.Some? ==> m.modelAt.value < m.modelEnd.value <= safe)
    && (!c.pending.NoMember? ==> m.hold == Some(c.pending.at))
    && (c.pending.MemberOpen? ==> c.pending.at <= c.pending.valueAt < i)
    && (forall k | 0 <= k < |m.found| :: m.found[k].at <= m.found[k].valueAt < m.found[k].end <= safe)
    && (m.openAt.Some? ==> m.openAt.value <= i && (m.hold.Some? ==> m.openAt.value <= m.hold.value))
    // once the root closed, its last byte is after every span
    && (s.st.End? ==>
          && (m.openAt.Some? ==> m.openAt.value < i)
          && (m.modelEnd.Some? ==> m.modelEnd.value < i)
          && (forall k | 0 <= k < |m.found| :: m.found[k].end < i))
  }

  /** The spans told so far are in body order and apart. */
  predicate Ordered(m: Marks) {
    && (forall k, l | 0 <= k < l < |m.found| :: m.found[k].end <= m.found[l].at)
    && (m.openAt.Some? ==> forall k | 0 <= k < |m.found| :: m.openAt.value <= m.found[k].at)
    && (m.modelEnd.Some? && m.modelAt.Some? ==>
          forall k | 0 <= k < |m.found| :: m.found[k].end <= m.modelAt.value || m.modelEnd.value <= m.found[k].at)
    && (m.openAt.Some? && m.modelAt.Some? ==> m.openAt.value <= m.modelAt.value)
  }

  /** A member the mask names is met once, so at most one span is told for each. */
  predicate FieldsApart(c: Core) {
    && (forall k | 0 <= k < |c.marks.found| :: c.marks.found[k].field in c.seen)
    && (forall k, l | 0 <= k < l < |c.marks.found| :: c.marks.found[k].field != c.marks.found[l].field)
    && (!c.pending.NoMember? ==>
          c.pending.field in c.seen && forall k | 0 <= k < |c.marks.found| :: c.marks.found[k].field != c.pending.field)
  }

  predicate Sane(cfg: Config, s: Scan, i: nat) {
    Alive(s) && Shape(cfg, s) && Places(s, i) && Ordered(s.core.marks) && FieldsApart(s.core)
  }

  /** From marks `a`, safe up to `p`, to later marks `b`: nothing known before `p` changes. */
  predicate Later(a: Marks, p: nat, b: Marks, q: nat) {
    && p <= q
    && a.found <= b.found && (forall k | |a.found| <= k < |b.found| :: b.found[k].at >= p)
    && (a.modelEnd.Some? ==> b.modelEnd == a.modelEnd && b.modelAt == a.modelAt)
    && (a.modelEnd.None? && b.modelEnd.Some? ==> b.modelAt.Some? && b.modelAt.value >= p)
    && (a.openAt.Some? ==> b.openAt == a.openAt)
    && (a.openAt.None? && b.openAt.Some? ==> b.openAt.value >= p)
    && (a.openAt.Some? && a.openAt.value < p ==> b.hasMember == a.hasMember)
  }

  predicate Onward(cfg: Config, s: Scan, i: nat, t: Scan) {
    Alive(t) ==> Sane(cfg, t, i + 1) && Later(s.core.marks, Safe(s, i), t.core.marks, Safe(t, i + 1))
  }

  // ---------------------------------------------------------------- one byte

  /** A byte that only moves the state, and perhaps spells a key on. */
  lemma OnwardMove(cfg: Config, s: Scan, i: nat, t: Scan)
    requires Sane(cfg, s, i) && t.core == s.core && t.stack == s.stack
    requires (InScalar(s.st) && InScalar(t.st)) ||
             (Spelling(s.st) && Spelling(t.st) && |t.word| == |s.word| + 1) ||
             (s.st.Colon? && t.st.Due?) || (s.st.ArrNext? && t.st.Due?) ||
             (Between(s.st) && t.st == s.st)
    ensures Onward(cfg, s, i, t)
  {
    hide Ordered, FieldsApart;
  }

  /** Good where it is, and settled as far as `s` was safe. */
  predicate Follows(cfg: Config, s: Scan, i: nat, t: Scan, j: nat) {
    Sane(cfg, t, j) && Later(s.core.marks, Safe(s, i), t.core.marks, Safe(t, j))
  }

  lemma FollowsTwice(cfg: Config, s: Scan, i: nat, t: Scan, j: nat, u: Scan, k: nat)
    requires Follows(cfg, s, i, t, j) && Follows(cfg, t, j, u, k)
    ensures Follows(cfg, s, i, u, k)
  {
    hide Shape, Places;
    LaterTwice(s.core.marks, Safe(s, i), t.core.marks, Safe(t, j), u.core.marks, Safe(u, k));
  }

  lemma LaterTwice(a: Marks, p: nat, b: Marks, q: nat, c: Marks, r: nat)
    requires Later(a, p, b, q) && Later(b, q, c, r)
    ensures Later(a, p, c, r)
  {
    assert forall k | |a.found| <= k < |b.found| :: c.found[k] == b.found[k];
  }

  lemma SameOrder(m: Marks, n: Marks)
    requires n == m.(hold := n.hold, hasMember := n.hasMember)
    ensures Ordered(n) == Ordered(m)
  {}

  lemma SameFields(c: Core, d: Core)
    requires d.marks.found == c.marks.found && d.seen == c.seen && d.pending == c.pending
    ensures FieldsApart(d) == FieldsApart(c)
  {}

  lemma SettleFields(cfg: Config, c: Core, depth: nat, end: nat)
    requires FieldsApart(c)
    ensures FieldsApart(Settle(cfg, c, depth, end))
  {}

  lemma StartFields(c: Core, d: Core, i: nat)
    requires FieldsApart(c) && StartStep(c, d, i)
    ensures FieldsApart(d)
  {}

  lemma KeyFields(cfg: Config, c: Core, d: Core)
    requires FieldsApart(c) && RootKeyStep(cfg, c, d) && c.pending.NoMember?
    ensures FieldsApart(d)
  {}

  lemma CloseModelOrdered(s: Scan, i: nat, depth: nat, end: nat)
    requires Places(s, i) && Ordered(s.core.marks)
    ensures Ordered(CloseModel(s.core, depth, end).marks)
  {}

  lemma CloseMemberOrdered(s: Scan, i: nat, end: nat)
    requires Places(s, i) && Ordered(s.core.marks) && (s.core.pending.MemberOpen? ==> s.core.model.Idle?)
    ensures Ordered(CloseMember(s.core, |s.stack|, end).marks)
  {}

  lemma SettleOrdered(cfg: Config, s: Scan, i: nat, end: nat)
    requires Places(s, i) && Ordered(s.core.marks) && (s.core.pending.MemberOpen? ==> s.core.model.Idle?)
    ensures Ordered(Settle(cfg, s.core, |s.stack|, end).marks)
  {
    hide Places, Ordered;
    CloseModelOrdered(s, i, |s.stack|, end);
    CloseMemberOrdered(s, i, end);
    var d := CloseMember(CloseModel(s.core, |s.stack|, end), |s.stack|, end);
    SameOrder(d.marks, d.marks.(hold := None));
  }

  lemma StartOrdered(s: Scan, i: nat, d: Core)
    requires Places(s, i) && Ordered(s.core.marks) && StartStep(s.core, d, i)
    requires s.core.model.ModelNext? ==> s.core.marks.modelEnd.None?
    ensures Ordered(d.marks)
  {}

  /** A scalar closes, by the byte at `i` or before it. */
  lemma DoneGood(cfg: Config, s: Scan, i: nat, end: nat)
    requires Sane(cfg, s, i) && InScalar(s.st) && i <= end <= i + 1
    ensures Follows(cfg, s, i, ValueDone(cfg, s, end), end)
  {
    hide Ordered, FieldsApart;
    SettleOrdered(cfg, s, i, end);
    SettleFields(cfg, s.core, |s.stack|, end);
  }

  /** The root closes. */
  lemma CloseRoot(cfg: Config, s: Scan, i: nat)
    requires Sane(cfg, s, i) && |s.stack| == 1
    requires s.st.ObjFirst? || s.st.ObjNext? || s.st.ArrFirst? || s.st.ArrNext?
    ensures Follows(cfg, s, i, CloseContainer(cfg, s, i), i + 1)
  {
    hide Ordered, FieldsApart;
    SameOrder(s.core.marks, CloseContainer(cfg, s, i).core.marks);
    SameFields(s.core, CloseContainer(cfg, s, i).core);
    var t := CloseContainer(cfg, s, i);
    assert t.stack == [] && t.st == End;
    assert t.core == if cfg.mask != {} then Held(s.core, None) else s.core;
  }

  /** A root member's value, or an element of a root array, closes. */
  lemma CloseSecond(cfg: Config, s: Scan, i: nat)
    requires Sane(cfg, s, i) && |s.stack| == 2
    requires s.st.ObjFirst? || s.st.ObjNext? || s.st.ArrFirst? || s.st.ArrNext?
    ensures Follows(cfg, s, i, CloseContainer(cfg, s, i), i + 1)
  {
    hide Ordered, FieldsApart;
    CloseModelOrdered(s, i, 1, i + 1);
    SameFields(s.core, CloseContainer(cfg, s, i).core);
    var t := CloseContainer(cfg, s, i);
    assert |t.stack| == 1 && s.core.pending.NoMember?;
    var c := s.core.(optionsDepth := 0);
    assert t.core == if s.core.model.ModelOpen?
                     then c.(model := Idle, marks := c.marks.(modelEnd := Some(i + 1), hold := None)) else c;
    assert t.st == ObjNext || t.st == ArrNext;
  }

  lemma CloseDeep(cfg: Config, s: Scan, i: nat)
    requires Sane(cfg, s, i) && |s.stack| > 2
    requires s.st.ObjFirst? || s.st.ObjNext? || s.st.ArrFirst? || s.st.ArrNext?
    ensures Follows(cfg, s, i, CloseContainer(cfg, s, i), i + 1)
  {
    hide Ordered, FieldsApart;
    SameOrder(s.core.marks, CloseContainer(cfg, s, i).core.marks);
    SameFields(s.core, CloseContainer(cfg, s, i).core);
    var t := CloseContainer(cfg, s, i);
    assert t.core == s.core && |t.stack| >= 2 && (t.st == ObjNext || t.st == ArrNext);
  }

  lemma CloseGood(cfg: Config, s: Scan, i: nat)
    requires Sane(cfg, s, i) && s.stack != []
    requires s.st.ObjFirst? || s.st.ObjNext? || s.st.ArrFirst? || s.st.ArrNext?
    ensures Follows(cfg, s, i, CloseContainer(cfg, s, i), i + 1)
  {
    hide Sane, Follows, CloseContainer;
    if |s.stack| == 1 { CloseRoot(cfg, s, i); }
    else if |s.stack| == 2 { CloseSecond(cfg, s, i); }
    else { CloseDeep(cfg, s, i); }
  }

  lemma OpenKeyGood(cfg: Config, s: Scan, i: nat)
    requires Sane(cfg, s, i) && (s.st.ObjFirst? || s.st.ObjKey?)
    ensures Follows(cfg, s, i, OpenKey(s, i), i + 1)
  {
    hide Ordered, FieldsApart;
    SameOrder(s.core.marks, OpenKey(s, i).core.marks);
    SameFields(s.core, OpenKey(s, i).core);
  }

  /** A key nothing checks. */
  lemma KeyFree(cfg: Config, s: Scan, i: nat)
    requires Sane(cfg, s, i) && s.st == InStr(true) && !Tracked(s.core, |s.stack|)
    ensures Onward(cfg, s, i, KeyDone(cfg, s))
  {
    hide Ordered, FieldsApart;
    SameOrder(s.core.marks, KeyDone(cfg, s).core.marks);
    SameFields(s.core, KeyDone(cfg, s).core);
  }

  /** A key of stream_options. */
  lemma KeyOption(cfg: Config, s: Scan, i: nat)
    requires Sane(cfg, s, i) && s.st == InStr(true) && Tracked(s.core, |s.stack|) && |s.stack| != 1
    ensures Onward(cfg, s, i, KeyDone(cfg, s))
  {
    var t := KeyDone(cfg, s);
    hide Ordered, FieldsApart;
    if Alive(t) {
      assert t.core == Held(s.core, None) && t.st == Colon && t.stack == s.stack;
      SameOrder(s.core.marks, t.core.marks);
      SameFields(s.core, t.core);
    }
  }

  /** What a root key may change, if it is not refused. */
  predicate RootKeyStep(cfg: Config, c: Core, d: Core) {
    && d.why == Good && d.optionsDepth == c.optionsDepth
    && d.marks == c.marks.(hold := d.marks.hold, hasMember := cfg.mask != {} || c.marks.hasMember)
    && (d.model == c.model || (d.model.ModelNext? && !c.modelSeen && d.modelSeen))
    && (c.modelSeen ==> d.modelSeen)
    && ((d.pending == c.pending && d.seen == c.seen && d.marks.hold.None?) ||
        (cfg.mask != {} && d.pending.MemberNext? && d.marks.hold == c.marks.hold &&
         d.pending.field !in c.seen && d.seen == c.seen + {d.pending.field} &&
         (c.marks.hold.Some? ==> d.pending.at == c.marks.hold.value)))
    && (d.pending.MemberNext? && c.pending.NoMember? ==> d.model == c.model && !d.optionsNext)
    && (d.optionsNext && !c.optionsNext ==> d.model == c.model && d.pending == c.pending)
  }

  lemma KeyRootStep(cfg: Config, s: Scan)
    requires Alive(s) && s.st == InStr(true) && |s.stack| == 1 && s.core.pending.NoMember? && !s.core.optionsNext
    requires s.core.model.Idle?
    ensures var t := KeyDone(cfg, s);
            t.st == Colon && t.stack == s.stack && (Alive(t) ==> RootKeyStep(cfg, s.core, t.core))
  {
    NamesApart();
    hide FieldOf;
  }

  lemma KeyRoot(cfg: Config, s: Scan, i: nat)
    requires Sane(cfg, s, i) && s.st == InStr(true) && |s.stack| == 1
    ensures Onward(cfg, s, i, KeyDone(cfg, s))
  {
    hide KeyDone, Ordered, FieldsApart;
    KeyRootStep(cfg, s);
    if Alive(KeyDone(cfg, s)) {
      SameOrder(s.core.marks, KeyDone(cfg, s).core.marks);
      KeyFields(cfg, s.core, KeyDone(cfg, s).core);
    }
  }

  lemma KeyDoneGood(cfg: Config, s: Scan, i: nat)
    requires Sane(cfg, s, i) && s.st == InStr(true)
    ensures Onward(cfg, s, i, KeyDone(cfg, s))
  {
    hide Sane, Onward, KeyDone;
    if !Tracked(s.core, |s.stack|) { KeyFree(cfg, s, i); }
    else if |s.stack| == 1 { KeyRoot(cfg, s, i); }
    else { KeyOption(cfg, s, i); }
  }

  /** What the first byte of a value may change, if it is not refused. */
  predicate StartStep(c: Core, d: Core, i: nat) {
    && d.why == Good && !d.optionsNext
    && d.optionsDepth == c.optionsDepth && d.modelSeen == c.modelSeen && d.seen == c.seen
    && (if c.model.ModelNext? then d.model.ModelOpen? && d.marks == c.marks.(modelAt := Some(i), hold := Some(i))
        else d.model == c.model && d.marks == c.marks)
    && (if c.pending.MemberNext? then d.pending == MemberOpen(c.pending.field, c.pending.at, i)
        else d.pending == c.pending)
  }

  lemma StartSteps(cfg: Config, c: Core, depth: nat, i: nat, first: char)
    requires c.why == Good && (c.pending.MemberNext? ==> cfg.mask != {})
    ensures var d := StartValue(cfg, c, depth, i, first);
            d.why == Good ==> StartStep(c, d, i) && (c.pending.MemberNext? ==> first == '"') &&
                              (cfg.mask != {} && depth == 0 ==> first == '{')
  {}

  lemma ScalarStarted(cfg: Config, s: Scan, i: nat, t: Scan)
    requires Sane(cfg, s, i) && (s.st.Due? || s.st.ArrFirst?)
    requires Alive(t) && t.stack == s.stack && InScalar(t.st) && StartStep(s.core, t.core, i)
    requires cfg.mask != {} ==> s.stack != []
    ensures Follows(cfg, s, i, t, i + 1)
  {
    hide Ordered, FieldsApart;
    StartOrdered(s, i, t.core);
    StartFields(s.core, t.core, i);
    if s.core.model.ModelNext? {
      assert s.core.marks.hold.None?;
    } else {
      assert t.core.marks == s.core.marks;
    }
  }

  lemma BeginScalar(cfg: Config, s: Scan, i: nat, first: char)
    requires Sane(cfg, s, i) && (s.st.Due? || s.st.ArrFirst?) && first != '{' && first != '['
    ensures Onward(cfg, s, i, Begin(cfg, s, i, first))
  {
    hide StartValue, Places, Ordered, FieldsApart, StartStep, Later;
    StartSteps(cfg, s.core, |s.stack|, i, first);
    var t := Begin(cfg, s, i, first);
    if Alive(t) { ScalarStarted(cfg, s, i, t); }
  }

  lemma BeginRoot(cfg: Config, s: Scan, i: nat, first: char)
    requires Sane(cfg, s, i) && s.st.Due? && (first == '{' || first == '[') && s.stack == []
    ensures Onward(cfg, s, i, Begin(cfg, s, i, first))
  {
    hide StartValue;
    StartSteps(cfg, s.core, |s.stack|, i, first);
    var t := Begin(cfg, s, i, first);
    if Alive(t) {
      assert |t.stack| == 1 && (t.st == ObjFirst || t.st == ArrFirst) && s.core.marks.hold.None?;
      assert cfg.mask != {} ==> t.st == ObjFirst && t.core.marks == s.core.marks.(openAt := Some(i + 1), hold := Some(i + 1));
      assert cfg.mask == {} ==> t.core.marks == s.core.marks;
      assert t.core.model == s.core.model && t.core.pending == s.core.pending;
      assert s.core.marks.found == [] && s.core.marks.modelAt.None?;
    }
  }

  lemma InnerStarted(cfg: Config, s: Scan, i: nat, d: Core, t: Scan)
    requires Sane(cfg, s, i) && (s.st.Due? || s.st.ArrFirst?) && s.stack != [] && s.core.pending.NoMember?
    requires StartStep(s.core, d, i) && |t.stack| == |s.stack| + 1 && (t.st == ObjFirst || t.st == ArrFirst)
    requires t.core == d || (s.core.optionsNext && |t.stack| == 2 && t.core == d.(optionsDepth := 2))
    ensures Follows(cfg, s, i, t, i + 1)
  {
    hide Ordered, FieldsApart;
    StartOrdered(s, i, d);
    StartFields(s.core, d, i);
    SameFields(d, t.core);
    if s.core.model.ModelNext? {
      assert s.core.marks.hold.None? && t.core == d;
    } else {
      assert t.core.marks == s.core.marks;
    }
  }

  lemma BeginInner(cfg: Config, s: Scan, i: nat, first: char)
    requires Sane(cfg, s, i) && (s.st.Due? || s.st.ArrFirst?) && (first == '{' || first == '[') && s.stack != []
    ensures Onward(cfg, s, i, Begin(cfg, s, i, first))
  {
    hide StartValue, Places, Ordered, FieldsApart, StartStep, Later;
    StartSteps(cfg, s.core, |s.stack|, i, first);
    var t, d := Begin(cfg, s, i, first), StartValue(cfg, s.core, |s.stack|, i, first);
    if Alive(t) { InnerStarted(cfg, s, i, d, t); }
  }

  lemma BeginGood(cfg: Config, s: Scan, i: nat, first: char)
    requires Sane(cfg, s, i) && (s.st.Due? || s.st.ArrFirst?)
    ensures Onward(cfg, s, i, Begin(cfg, s, i, first))
  {
    hide Onward, Begin, Places;
    if first != '{' && first != '[' { BeginScalar(cfg, s, i, first); }
    else if s.stack == [] { BeginRoot(cfg, s, i, first); }
    else { BeginInner(cfg, s, i, first); }
  }

  lemma CommaGood(cfg: Config, s: Scan, i: nat)
    requires Sane(cfg, s, i) && s.st.ObjNext?
    ensures Follows(cfg, s, i, s.(st := ObjKey, core := HoldComma(cfg, s.core, |s.stack|, i)), i + 1)
  {
    hide Ordered, FieldsApart;
    SameOrder(s.core.marks, HoldComma(cfg, s.core, |s.stack|, i).marks);
    SameFields(s.core, HoldComma(cfg, s.core, |s.stack|, i));
  }

  // ---------------------------------------------------------------- the automaton's step

  lemma PunctGood(cfg: Config, s: Scan, i: nat, c: char)
    requires Sane(cfg, s, i) && Between(s.st)
    ensures Onward(cfg, s, i, Punct(cfg, s, i, c))
  {
    hide Onward, Follows, Places, CloseContainer, Begin, OpenKey, HoldComma;
    if Ws(c) {
      OnwardMove(cfg, s, i, s);
    } else if s.st.Colon? {
      OnwardMove(cfg, s, i, s.(st := Due));
    } else if s.st.ObjFirst? || s.st.ObjKey? {
      OpenKeyGood(cfg, s, i);
      if s.st.ObjFirst? && s.stack != [] { CloseGood(cfg, s, i); FollowsOnward(cfg, s, i, CloseContainer(cfg, s, i)); }
      FollowsOnward(cfg, s, i, OpenKey(s, i));
    } else if s.st.ObjNext? {
      CommaGood(cfg, s, i);
      FollowsOnward(cfg, s, i, s.(st := ObjKey, core := HoldComma(cfg, s.core, |s.stack|, i)));
      if s.stack != [] { CloseGood(cfg, s, i); FollowsOnward(cfg, s, i, CloseContainer(cfg, s, i)); }
    } else if s.st.ArrNext? {
      OnwardMove(cfg, s, i, s.(st := Due));
      if s.stack != [] { CloseGood(cfg, s, i); FollowsOnward(cfg, s, i, CloseContainer(cfg, s, i)); }
    } else if !s.st.End? {
      BeginGood(cfg, s, i, c);
      if s.st.ArrFirst? && s.stack != [] { CloseGood(cfg, s, i); FollowsOnward(cfg, s, i, CloseContainer(cfg, s, i)); }
    }
    OnwardDead(cfg, s, i, Punct(cfg, s, i, c));
  }

  lemma FollowsOnward(cfg: Config, s: Scan, i: nat, t: Scan)
    requires Follows(cfg, s, i, t, i + 1)
    ensures Onward(cfg, s, i, t)
  {
    hide Sane, Later;
  }

  lemma OnwardDead(cfg: Config, s: Scan, i: nat, t: Scan)
    ensures !Alive(t) ==> Onward(cfg, s, i, t)
  {
    hide Sane, Later;
  }

  lemma NumberEndsGood(cfg: Config, s: Scan, i: nat, c: char)
    requires Sane(cfg, s, i) && NumberFinal(s.st)
    ensures Onward(cfg, s, i, NumberEnds(cfg, s, i, c))
  {
    hide Sane, Later, Punct;
    DoneGood(cfg, s, i, i);
    var u := ValueDone(cfg, s, i);
    PunctGood(cfg, u, i, c);
    var t := Punct(cfg, u, i, c);
    if Alive(t) { FollowsTwice(cfg, s, i, u, i, t, i + 1); }
  }

  lemma StringGood(cfg: Config, s: Scan, i: nat, c: char)
    requires Sane(cfg, s, i) && (s.st.InStr? || s.st.StrEsc? || s.st.StrHex?)
    ensures Onward(cfg, s, i, Step(cfg, s, i, c))
  {
    hide Onward, Places, Shape, KeyDone, ValueDone, Punct, NumberEnds;
    var t := Step(cfg, s, i, c);
    if !Alive(t) {
      OnwardDead(cfg, s, i, t);
    } else if s.st.InStr? && c == '"' {
      if s.st.key {
        KeyDoneGood(cfg, s, i);
      } else {
        DoneGood(cfg, s, i, i + 1);
        FollowsOnward(cfg, s, i, t);
      }
    } else {
      OnwardMove(cfg, s, i, t);
    }
  }

  lemma ScalarGood(cfg: Config, s: Scan, i: nat, c: char)
    requires Sane(cfg, s, i) && !Between(s.st) && !s.st.InStr? && !s.st.StrEsc? && !s.st.StrHex?
    ensures Onward(cfg, s, i, Step(cfg, s, i, c))
  {
    hide Onward, Places, Shape, KeyDone, ValueDone, Punct, NumberEnds;
    var t := Step(cfg, s, i, c);
    if !Alive(t) {
      OnwardDead(cfg, s, i, t);
    } else if s.st.InLit? {
      if s.st.read + 1 == |LiteralText(s.st.literal)| {
        DoneGood(cfg, s, i, i + 1);
        FollowsOnward(cfg, s, i, t);
      } else {
        OnwardMove(cfg, s, i, t);
      }
    } else if NumberFinal(s.st) && t == NumberEnds(cfg, s, i, c) {
      NumberEndsGood(cfg, s, i, c);
    } else {
      OnwardMove(cfg, s, i, t);
    }
  }

  lemma StepGood(cfg: Config, s: Scan, i: nat, c: char)
    requires Sane(cfg, s, i)
    ensures Onward(cfg, s, i, Step(cfg, s, i, c))
  {
    hide Onward, Places, Shape, KeyDone, ValueDone, Punct, NumberEnds;
    if Between(s.st) { PunctGood(cfg, s, i, c); }
    else if s.st.InStr? || s.st.StrEsc? || s.st.StrHex? { StringGood(cfg, s, i, c); }
    else { ScalarGood(cfg, s, i, c); }
  }

  // ---------------------------------------------------------------- whole runs

  /** Over any run that is not refused, the invariants hold and what was safe stays settled. */
  lemma {:induction false} RunGood(cfg: Config, s: Scan, i: nat, text: string)
    requires Sane(cfg, s, i) && Alive(Run(cfg, s, i, text))
    ensures Follows(cfg, s, i, Run(cfg, s, i, text), i + |text|)
    decreases |text|
  {
    hide Shape, Places, Step;
    if text != "" {
      var t := Step(cfg, s, i, text[0]);
      StepGood(cfg, s, i, text[0]);
      if !Alive(t) { RunRefused(cfg, t, i + 1, text[1..]); }
      RunGood(cfg, t, i + 1, text[1..]);
      FollowsTwice(cfg, s, i, t, i + 1, Run(cfg, t, i + 1, text[1..]), i + |text|);
    }
  }

  lemma StartGood(cfg: Config)
    ensures Sane(cfg, INIT, 0)
  {}

  /** The scan once the first `n` bytes of `body` arrived. */
  function At(cfg: Config, body: string, n: nat): Scan
    requires n <= |body|
  {
    Run(cfg, INIT, 0, body[..n])
  }

  /** The safe point after `n` bytes. */
  function SafeAt(cfg: Config, body: string, n: nat): nat
    requires n <= |body|
  {
    Safe(At(cfg, body, n), n)
  }

  /** As bytes arrive the safe point never goes back, and nothing known before it changes. */
  lemma SafeGrows(cfg: Config, body: string, n: nat, k: nat)
    requires n <= k <= |body| && Alive(At(cfg, body, k))
    ensures Alive(At(cfg, body, n)) && SafeAt(cfg, body, n) <= SafeAt(cfg, body, k) <= k
    ensures Later(At(cfg, body, n).core.marks, SafeAt(cfg, body, n), At(cfg, body, k).core.marks, SafeAt(cfg, body, k))
  {
    hide Step, Run, Shape, Places;
    assert body[..k] == body[..n] + body[n..k];
    RunAppend(cfg, INIT, 0, body[..n], body[n..k]);
    var s := At(cfg, body, n);
    if !Alive(s) { RunRefused(cfg, s, n, body[n..k]); }
    StartGood(cfg);
    RunGood(cfg, INIT, 0, body[..n]);
    RunGood(cfg, s, n, body[n..k]);
  }

  /** The safe point is never strictly inside a checked key, the model's value or a tracked member,
      and every span already told lies before it. */
  lemma SafeOutside(cfg: Config, body: string, n: nat)
    requires n <= |body| && Alive(At(cfg, body, n))
    ensures var s, safe := At(cfg, body, n), SafeAt(cfg, body, n);
            && (Spelling(s.st) && Tracked(s.core, |s.stack|) ==> safe <= n - |s.word| - 1)
            && (s.core.model.ModelOpen? ==> s.core.marks.modelAt == Some(safe))
            && (!s.core.pending.NoMember? ==> s.core.pending.at == safe)
            && (s.core.marks.modelEnd.Some? ==> s.core.marks.modelEnd.value <= safe)
            && (forall sp <- s.core.marks.found :: sp.end <= safe)
  {
    hide Step, Run;
    StartGood(cfg);
    RunGood(cfg, INIT, 0, body[..n]);
  }
}
