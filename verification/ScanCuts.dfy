/** Where a cut shows: after a byte was refused, the safe point is the one thing about a scan that
    depends on the arrivals, and exactly how.
 */
module ScanCuts {
  import opened Options
  import opened Automaton
  import opened ScanGrammar
  import opened Json
  import opened BodyScan
  import opened Parts

  /** How far two cuts of one body get: whole in one arrival, and in two. */
  lemma CutReaches(cfg: Config, a: string, b: string)
    ensures Join([a + b]) == a + b == Join([a, b])
    ensures Reached(cfg, [a + b], 1) == if Alive(Run(cfg, INIT, 0, a + b)) then |a + b| else 0
    ensures Reached(cfg, [a, b], 2)
            == if Alive(Run(cfg, INIT, 0, a + b)) then |a + b| else if Alive(Run(cfg, INIT, 0, a)) then |a| else 0
  {
    hide Run;
    RunAppend(cfg, INIT, 0, a, b);
    if !Alive(Run(cfg, INIT, 0, a)) { RunRefused(cfg, Run(cfg, INIT, 0, a), |a|, b); }
    assert [a + b][..1] == [a + b] && [a, b][..2] == [a, b] && [a, b][..1] == [a];
    assert Join([a + b]) == a + b + Join([]) == a + b;
    assert [a, b][1..] == [b] && Join([b]) == b + Join([]) == b;
    assert Join([a]) == a + Join([]) == a;
    assert Reached(cfg, [a, b], 1) == if Alive(Run(cfg, INIT, 0, a)) then |a| else 0;
  }

  /** Nothing is ever held from the body's first byte on. */
  predicate HeldLater(s: Scan) { s.core.marks.hold.Some? ==> s.core.marks.hold.value > 0 }

  lemma ClosedHeldLater(cfg: Config, s: Scan, end: nat)
    requires HeldLater(s)
    ensures HeldLater(ValueDone(cfg, s, end))
  {}

  lemma KeyHeldLater(cfg: Config, s: Scan)
    requires HeldLater(s)
    ensures HeldLater(KeyDone(cfg, s))
  {
    hide FieldOf, KeySet, KeyModel;
    var c := KeyHold(cfg, s.core, |s.stack|, s.word);
    KeyModelKeeps(cfg, c, |s.stack|, s.word);
    KeySetKeeps(cfg, s.(st := Colon, word := "", core := KeyModel(cfg, c, |s.stack|, s.word)), s.word);
  }

  lemma KeyModelKeeps(cfg: Config, c: Core, depth: nat, k: string)
    ensures KeyModel(cfg, c, depth, k).marks == c.marks
  {}

  lemma KeySetKeeps(cfg: Config, s: Scan, k: string)
    ensures KeySet(cfg, s, k).core.marks == s.core.marks
  {}

  lemma BegunHeldLater(cfg: Config, s: Scan, i: nat, first: char)
    requires i > 0 && HeldLater(s)
    ensures HeldLater(Begin(cfg, s, i, first))
  {}

  lemma PunctHeldLater(cfg: Config, s: Scan, i: nat, c: char)
    requires i > 0 && HeldLater(s) && Between(s.st)
    ensures HeldLater(Punct(cfg, s, i, c))
  {
    hide Begin, ValueDone;
    BegunHeldLater(cfg, s, i, c);
    if s.stack != [] {
      var stack := s.stack[..|s.stack| - 1];
      ClosedHeldLater(cfg, s.(stack := stack, core := LeaveOptions(s.core, |stack|)), i + 1);
    }
  }

  lemma StepHeldLater(cfg: Config, s: Scan, i: nat, c: char)
    requires i > 0 && HeldLater(s)
    ensures HeldLater(Step(cfg, s, i, c))
  {
    hide Punct, ValueDone, KeyDone, LiteralText, ShortEscape, Hex;
    ClosedHeldLater(cfg, s, i);
    ClosedHeldLater(cfg, s, i + 1);
    KeyHeldLater(cfg, s);
    EndsBetween(cfg, s, i);
    PunctHeldLater(cfg, ValueDone(cfg, s, i), i, c);
    if Between(s.st) { PunctHeldLater(cfg, s, i, c); }
  }

  lemma EndsBetween(cfg: Config, s: Scan, end: nat)
    ensures Between(ValueDone(cfg, s, end).st)
  {}

  lemma FirstHeldLater(cfg: Config, c: char)
    ensures HeldLater(Step(cfg, INIT, 0, c))
  {}

  lemma {:induction false} RunHeldLater(cfg: Config, s: Scan, i: nat, text: string)
    requires i > 0 && HeldLater(s)
    ensures HeldLater(Run(cfg, s, i, text))
    decreases |text|
  {
    hide Step, HeldLater;
    if text != "" {
      StepHeldLater(cfg, s, i, text[0]);
      RunHeldLater(cfg, Step(cfg, s, i, text[0]), i + 1, text[1..]);
    }
  }

  lemma BodyHeldLater(cfg: Config, body: string)
    ensures HeldLater(Run(cfg, INIT, 0, body))
  {
    hide Step;
    if body != "" {
      FirstHeldLater(cfg, body[0]);
      RunHeldLater(cfg, Step(cfg, INIT, 0, body[0]), 1, body[1..]);
    }
  }

  /** The two safe points differ exactly when a byte is refused in the second arrival and the first
      holds any. */
  lemma CutDiffers(cfg: Config, a: string, b: string)
    ensures var v := Verdict(cfg, a + b);
            Safe(v, Reached(cfg, [a + b], 1)) != Safe(v, Reached(cfg, [a, b], 2)) <==>
            a != "" && Alive(Run(cfg, INIT, 0, a)) && !Alive(Run(cfg, INIT, 0, a + b))
  {
    hide Run, Reached, Join;
    CutReaches(cfg, a, b);
    BodyHeldLater(cfg, a + b);
  }

  // ---------------------------------------------------------------- one body, two cuts

  const EVERY_KEY := Config(true, false, {})

  /** `{"a":1,` */
  const FIRST: string := ['{', '"', 'a', '"', ':', '1', ',']

  /** `"a":2}` */
  const SECOND: string := ['"', 'a', '"', ':', '2', '}']

  function InRoot(st: St, word: string, top: seq<string>, hold: Option<nat>): Scan {
    Scan(st, [InObj], word, top, [], Held(START, hold))
  }

  lemma OpensRoot()
    ensures Step(EVERY_KEY, INIT, 0, '{') == InRoot(ObjFirst, "", [], None)
  {
    assert [] + [InObj] == [InObj];
  }

  lemma OpensKey(s: Scan, i: nat)
    requires s == InRoot(s.st, "", s.top, None) && (s.st.ObjFirst? || s.st.ObjKey?)
    ensures Step(EVERY_KEY, s, i, '"') == InRoot(InStr(true), "", s.top, Some(i))
  {}

  lemma SpellsA(s: Scan, i: nat)
    requires s == InRoot(InStr(true), "", s.top, s.core.marks.hold)
    ensures Step(EVERY_KEY, s, i, 'a') == InRoot(InStr(true), "a", s.top, s.core.marks.hold)
  {
    hide Punct, NumberEnds, KeyDone;
    assert "" + ['a'] == "a";
  }

  lemma ClosesKey(s: Scan, i: nat)
    requires s == InRoot(InStr(true), "a", s.top, s.core.marks.hold) && (s.top == [] || s.top == ["a"])
    ensures var t := Step(EVERY_KEY, s, i, '"');
            && t.core.marks.hold == None
            && (s.top == [] ==> t == InRoot(Colon, "", ["a"], None)) && (s.top == ["a"] ==> t.core.why == RepeatedKey)
  {
    hide Punct, NumberEnds;
    KeyOnce(s);
  }

  lemma KeyOnce(s: Scan)
    requires s == InRoot(InStr(true), "a", s.top, s.core.marks.hold) && (s.top == [] || s.top == ["a"])
    ensures var t := KeyDone(EVERY_KEY, s);
            && t.core.marks.hold == None
            && (s.top == [] ==> t == InRoot(Colon, "", ["a"], None)) && (s.top == ["a"] ==> t.core.why == RepeatedKey)
  {
    assert [] + ["a"] == ["a"] && "a"[0] == 'a' && "model"[0] == 'm' && "stream_options"[0] == 's';
    assert '\\' !in "a";
  }

  lemma ReadsOne()
    ensures Step(EVERY_KEY, InRoot(Colon, "", ["a"], None), 4, ':') == InRoot(Due, "", ["a"], None)
    ensures Step(EVERY_KEY, InRoot(Due, "", ["a"], None), 5, '1') == InRoot(NumInt, "", ["a"], None)
    ensures Step(EVERY_KEY, InRoot(NumInt, "", ["a"], None), 6, ',') == InRoot(ObjKey, "", ["a"], None)
  {}

  lemma FirstRead()
    ensures Run(EVERY_KEY, INIT, 0, FIRST) == InRoot(ObjKey, "", ["a"], None)
  {
    hide Run, Step;
    var s1 := InRoot(ObjFirst, "", [], None);
    OpensRoot();
    KeyRead(s1, 1);
    ReadsOne();
    var t := FIRST;
    RunCons(EVERY_KEY, INIT, 0, t);
    assert t[1..] == ['"', 'a', '"', ':', '1', ','] == ['"', 'a', '"'] + [':', '1', ','];
    RunAppend(EVERY_KEY, s1, 1, ['"', 'a', '"'], [':', '1', ',']);
    var s4 := InRoot(Colon, "", ["a"], None);
    RunCons(EVERY_KEY, s4, 4, [':', '1', ',']);
    assert [':', '1', ','][1..] == ['1', ','] && ['1', ','][1..] == [','] && [','][1..] == "";
    RunCons(EVERY_KEY, InRoot(Due, "", ["a"], None), 5, ['1', ',']);
    RunCons(EVERY_KEY, InRoot(NumInt, "", ["a"], None), 6, [',']);
    RunNone(EVERY_KEY, InRoot(ObjKey, "", ["a"], None), 7);
  }

  /** The key `"a"`, quotes and all. */
  lemma KeyRead(s: Scan, i: nat)
    requires s == InRoot(s.st, "", s.top, None) && (s.st.ObjFirst? || s.st.ObjKey?) && (s.top == [] || s.top == ["a"])
    ensures var t := Run(EVERY_KEY, s, i, ['"', 'a', '"']);
            && t.core.marks.hold == None
            && (s.top == [] ==> t == InRoot(Colon, "", ["a"], None)) && (s.top == ["a"] ==> t.core.why == RepeatedKey)
  {
    hide Run, Step;
    var o, w := InRoot(InStr(true), "", s.top, Some(i)), InRoot(InStr(true), "a", s.top, Some(i));
    OpensKey(s, i);
    SpellsA(o, i + 1);
    ClosesKey(w, i + 2);
    RunCons(EVERY_KEY, s, i, ['"', 'a', '"']);
    assert ['"', 'a', '"'][1..] == ['a', '"'] && ['a', '"'][1..] == ['"'] && ['"'][1..] == "";
    RunCons(EVERY_KEY, o, i + 1, ['a', '"']);
    RunCons(EVERY_KEY, w, i + 2, ['"']);
    RunNone(EVERY_KEY, Step(EVERY_KEY, w, i + 2, '"'), i + 3);
  }

  /** `{"a":1,"a":2}` is refused at its second key with nothing held: fed whole its safe point is 0,
      fed in two arrivals, after the comma, it is 7. */
  lemma SafeDependsOnCut()
    ensures var v := Verdict(EVERY_KEY, FIRST + SECOND);
            && v.core.why == RepeatedKey && Join([FIRST + SECOND]) == Join([FIRST, SECOND])
            && Safe(v, Reached(EVERY_KEY, [FIRST + SECOND], 1)) == 0
            && Safe(v, Reached(EVERY_KEY, [FIRST, SECOND], 2)) == 7
  {
    hide Run, Step, Reached, Join;
    var s := InRoot(ObjKey, "", ["a"], None);
    FirstRead();
    KeyRead(s, 7);
    assert SECOND == ['"', 'a', '"'] + [':', '2', '}'];
    RunAppend(EVERY_KEY, INIT, 0, FIRST, SECOND);
    RunAppend(EVERY_KEY, s, 7, ['"', 'a', '"'], [':', '2', '}']);
    RunRefused(EVERY_KEY, Run(EVERY_KEY, s, 7, ['"', 'a', '"']), 10, [':', '2', '}']);
    CutReaches(EVERY_KEY, FIRST, SECOND);
  }
}
