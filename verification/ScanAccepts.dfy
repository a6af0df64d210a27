/** The scan accepts exactly the JSON texts that fit its rules. */
module ScanAccepts {
  import opened Json
  import opened Automaton
  import opened ScanGrammar
  import opened ScanParse
  import opened ScanRules
  import opened ScanRoot

  /** The elements of a root array. */
  lemma {:induction false} RootItems(cfg: Config, b: Scan, at: nat, items: seq<Item>)
    requires Alive(b) && Expects(b) && b.stack == [InArr] && b.core == START
    requires items != [] && (forall it <- items :: ItemOk(it))
    ensures Alive(AbsorbItems(cfg, b, at, items)) <==> 1 + ItemsDepth(items) <= MAX_DEPTH
    decreases items
  {
    hide Absorb;
    var it := items[0];
    assert ItemOk(it);
    AbsorbQuiet(cfg, b, at + |it.pre|, it.value);
    var t, j := Absorb(cfg, b, at + |it.pre|, it.value), at + |ItemText(it)|;
    if Alive(t) {
      assert t == b.(st := ArrNext);
      if |items| > 1 { RootItems(cfg, Await(t), j + 1, items[1..]); }
    } else if |items| > 1 {
      ItemsRefused(cfg, t, j + 1, items[1..]);
    }
  }

  lemma RootObject(cfg: Config, at: nat)
    ensures var b := Begin(cfg, INIT, at, '{');
            && Alive(b) && b.st == ObjFirst && b.stack == [InObj] && b.word == "" && b.top == [] && b.options == []
            && b.core == Enter(cfg, START, 1, at, InObj, false)
  {
    assert [] + [InObj] == [InObj];
  }

  lemma RootStart(cfg: Config, at: nat, members: seq<Member>)
    ensures AtMember(cfg, Begin(cfg, INIT, at, '{'), members, 0)
  {
    hide Begin;
    RootObject(cfg, at);
    assert KeysOf(members[..0]) == [];
  }

  /** Following a tree from the start refuses exactly what the rules exclude. */
  lemma RootFits(cfg: Config, at: nat, v: Value)
    requires ValueOk(v)
    ensures Alive(Absorb(cfg, INIT, at, v)) <==> Fits(cfg, v)
  {
    hide AbsorbItems, AbsorbMembers, MemberFits, Settle;
    match v {
      case Arr(gap, items) =>
        if cfg.mask == {} {
          var b := Begin(cfg, INIT, at, '[');
          assert [] + [InArr] == [InArr];
          if items != [] { RootItems(cfg, b, at + 1, items); } else { assert Depth(v) == 1; }
        }
      case Obj(gap, members) =>
        RootStart(cfg, at, members);
        RootObject(cfg, at);
        if members != [] {
          assert members[0..] == members;
          RootMembers(cfg, Begin(cfg, INIT, at, '{'), at + 1, members, 0);
          assert FitFrom(cfg, members, 0) <==> forall j: nat | j < |members| :: MemberFits(cfg, members, j);
        } else {
          assert Depth(v) == 1;
        }
      case _ =>
    }
  }

  /** A text whose tree is not refused is taken to its end. */
  lemma TextDone(cfg: Config, d: Doc)
    requires DocOk(d) && Alive(Absorb(cfg, INIT, |d.pre|, d.value))
    ensures Done(Verdict(cfg, DocText(d)))
  {
    hide Step, Run, Absorb, Text;
    var body, v, j := DocText(d), d.value, |d.pre| + |Text(d.value)|;
    var t := Absorb(cfg, INIT, |d.pre|, v);
    assert body + " " == d.pre + (Text(v) + (d.post + " "));
    RunBlank(cfg, INIT, 0, d.pre);
    RunAfter(cfg, INIT, 0, d.pre, INIT, Text(v) + (d.post + " "));
    RunValue(cfg, INIT, |d.pre|, v, d.post + " ");
    AbsorbShape(cfg, INIT, |d.pre|, v);
    RunBlank(cfg, t, j, d.post + " ");
    var end := Run(cfg, INIT, 0, body);
    RunAppend(cfg, INIT, 0, body, " ");
    RunCons(cfg, end, |body|, " ");
    assert " "[0] == ' ' && " "[1..] == "";
    RunNone(cfg, Step(cfg, end, |body|, ' '), |body| + 1);
    FinishIsBlank(cfg, end, |body|);
  }

  /** `body` is one JSON text that fits the rules of `cfg`. */
  ghost predicate Acceptable(cfg: Config, body: string) {
    exists d: Doc :: DocOk(d) && DocText(d) == body && Fits(cfg, d.value)
  }

  /** Automaton equals grammar, for every configuration and every byte string. */
  lemma DoneExactly(cfg: Config, body: string)
    ensures Done(Verdict(cfg, body)) <==> Acceptable(cfg, body)
  {
    hide Absorb, Fits, Verdict, Done, DocOk, DocText;
    if Done(Verdict(cfg, body)) {
      var d := ParseDoc(cfg, body);
      DocValue(d);
      RootFits(cfg, |d.pre|, d.value);
    }
    if Acceptable(cfg, body) {
      var d: Doc :| DocOk(d) && DocText(d) == body && Fits(cfg, d.value);
      DocValue(d);
      RootFits(cfg, |d.pre|, d.value);
      TextDone(cfg, d);
    }
  }

  lemma DocValue(d: Doc)
    requires DocOk(d)
    ensures ValueOk(d.value)
  {}
}
