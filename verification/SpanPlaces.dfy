/** Where the spans the scan tells lie in the tree of the body. */
module SpanPlaces {
  import opened Json
  import opened Options
  import opened Automaton
  import opened ScanGrammar
  import opened ScanRules
  import opened ScanRoot

  /** The field of the mask this key names. */
  function FieldIn(mask: set<Field>, key: string): Option<Field> {
    if FieldOf(key).Some? && FieldOf(key).value in mask then FieldOf(key) else None
  }

  /** Where the text of the member at `at` has its value, and where the value ends. */
  function ValueAt(at: nat, m: Member): nat { at + |MemberHead(m)| }

  function ValueEnd(at: nat, m: Member): nat { at + |MemberHead(m)| + |Text(m.value)| }

  /** What a root member at `at`, its separator at `sep`, adds to the marks. */
  function Told(cfg: Config, marks: Marks, sep: nat, at: nat, m: Member): Marks {
    var f := FieldIn(cfg.mask, m.key);
    var tracked := cfg.trackModel && m.key == "model";
    marks.(hold := None,
           hasMember := cfg.mask != {} || marks.hasMember,
           modelAt := if tracked then Some(ValueAt(at, m)) else marks.modelAt,
           modelEnd := if tracked then Some(ValueEnd(at, m)) else marks.modelEnd,
           found := if f.Some? then marks.found + [Span(sep, ValueAt(at, m), ValueEnd(at, m), f.value)] else marks.found)
  }

  /** A separator held, when members are spliced. */
  predicate HeldAt(cfg: Config, c: Core, sep: nat) {
    c.marks.hold == if cfg.mask != {} then Some(sep) else None
  }

  lemma KeyMarks(cfg: Config, c: Core, i: nat, key: string, sep: nat)
    requires Settled(cfg, c) && HeldAt(cfg, c, sep) && sep <= i && KeyCore(cfg, c, i, key).why == Good
    ensures var d := KeyCore(cfg, c, i, key);
            var f := FieldIn(cfg.mask, key);
            && d.marks == c.marks.(hold := if f.Some? then Some(sep) else None,
                                   hasMember := cfg.mask != {} || c.marks.hasMember)
            && d.pending == (if f.Some? then MemberNext(f.value, sep) else NoMember)
            && d.model == (if cfg.trackModel && key == "model" then ModelNext else Idle)
  {}

  lemma MemberMarks(cfg: Config, c: Core, at: nat, m: Member, sep: nat)
    requires Settled(cfg, c) && HeldAt(cfg, c, sep) && sep <= at
    requires KeyCore(cfg, c, at + |m.pre|, m.key).why == Good
    requires FieldIn(cfg.mask, m.key).Some? ==> m.value.Str?
    ensures MemberCore(cfg, c, at, m).marks == Told(cfg, c.marks, sep, at, m)
  {
    hide KeyCore, MemberHead, Text;
    KeyMarks(cfg, c, at + |m.pre|, m.key, sep);
    NamesApart();
  }

  /** The marks after root members from `at` on, the first one's separator at `sep`. */
  function TellAll(cfg: Config, marks: Marks, sep: nat, at: nat, members: seq<Member>): Marks
    decreases |members|
  {
    if members == [] then marks
    else
      var next := at + |MemberText(members[0])|;
      TellAll(cfg, Told(cfg, marks, sep, at, members[0]), next, next + 1, members[1..])
  }

  lemma {:induction false} MembersMarks(cfg: Config, s: Scan, sep: nat, at: nat, members: seq<Member>, k: nat)
    requires k < |members| && AtMember(cfg, s, members, k) && HeldAt(cfg, s.core, sep) && sep <= at
    requires (forall m <- members :: MemberOk(m)) && Alive(AbsorbMembers(cfg, s, at, members[k..]))
    ensures MembersCore(cfg, s.core, at, members[k..]).marks == TellAll(cfg, s.core.marks, sep, at, members[k..])
    decreases |members| - k
  {
    hide AbsorbMember, MemberFits, AtMember, MemberCore, Told, KeyCore, MemberText, Close;
    var m, rest := members[k], members[k + 1..];
    assert members[k..][0] == m && members[k..][1..] == rest && MemberOk(m);
    var t, j := AbsorbMember(cfg, s, at, m), at + |MemberText(m)|;
    if rest != [] { MembersAlive(cfg, Comma(cfg, t, j), j + 1, rest); }
    ReadMember(cfg, s, at, members, k);
    RootMember(cfg, s, at, members, k);
    ValueIsString(cfg, m);
    SettledAt(cfg, s, members, k);
    MemberMarks(cfg, s.core, at, m, sep);
    ToldReleases(cfg, s.core.marks, sep, at, m);
    if rest != [] {
      var u := Comma(cfg, t, j);
      CommaMarks(cfg, t, j);
      MembersMarks(cfg, u, j, j + 1, members, k + 1);
      TellIgnoresHold(cfg, Told(cfg, s.core.marks, sep, at, m), u.core.marks, j, j + 1, rest);
    }
  }

  lemma SettledAt(cfg: Config, s: Scan, members: seq<Member>, k: nat)
    requires k <= |members| && AtMember(cfg, s, members, k)
    ensures Settled(cfg, s.core)
  {}

  lemma ValueIsString(cfg: Config, m: Member)
    requires ValuePart(cfg, m)
    ensures FieldIn(cfg.mask, m.key).Some? ==> m.value.Str?
  {
    hide KeysFit;
    forall f: Field { FieldNames(f, m.key); }
  }

  lemma ToldReleases(cfg: Config, marks: Marks, sep: nat, at: nat, m: Member)
    ensures Told(cfg, marks, sep, at, m).hold == None
  {}

  lemma CommaMarks(cfg: Config, t: Scan, j: nat)
    requires Alive(t) && t.stack == [InObj] && t.core.marks.hold.None?
    ensures HeldAt(cfg, Comma(cfg, t, j).core, j)
    ensures Comma(cfg, t, j).core.marks == t.core.marks.(hold := Comma(cfg, t, j).core.marks.hold)
  {}

  lemma TellIgnoresHold(cfg: Config, a: Marks, b: Marks, sep: nat, at: nat, members: seq<Member>)
    requires members != [] && b == a.(hold := b.hold)
    ensures TellAll(cfg, a, sep, at, members) == TellAll(cfg, b, sep, at, members)
  {
    assert Told(cfg, a, sep, at, members[0]) == Told(cfg, b, sep, at, members[0]);
  }
}
