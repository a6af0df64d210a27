/** The marks a finished scan holds, as a function of the tree of the body. */
module SpliceMarks {
  import opened Json
  import opened Options
  import opened Automaton
  import opened SafePoints
  import opened ScanGrammar
  import opened ScanParse
  import opened ScanRules
  import opened ScanRoot
  import opened ScanAccepts
  import opened SpanPlaces

  /** Marks but for the hold, which only the safe point reads. */
  function Spans(m: Marks): Marks { m.(hold := None) }

  lemma BlankAfter(cfg: Config, s: Scan, at: nat)
    requires Done(Finish(s))
    ensures Spans(Step(cfg, s, at, ' ').core.marks) == Spans(s.core.marks)
  {
    hide CloseContainer, Begin, OpenKey, KeyDone;
  }

  /** The scan of a whole text ends where following its tree does. */
  lemma EndsAtTree(cfg: Config, d: Doc)
    requires DocOk(d) && Done(Verdict(cfg, DocText(d)))
    ensures var t := Absorb(cfg, INIT, |d.pre|, d.value);
            Alive(t) && Spans(At(cfg, DocText(d), |DocText(d)|).core.marks) == Spans(t.core.marks)
  {
    hide Step, Run, Absorb, Text;
    var body, v, j := DocText(d), d.value, |d.pre| + |Text(d.value)|;
    var t := Absorb(cfg, INIT, |d.pre|, v);
    assert body + " " == d.pre + (Text(v) + (d.post + " "));
    RunBlank(cfg, INIT, 0, d.pre);
    RunAfter(cfg, INIT, 0, d.pre, INIT, Text(v) + (d.post + " "));
    RunValue(cfg, INIT, |d.pre|, v, d.post + " ");
    var end := Run(cfg, INIT, 0, body);
    assert body[..|body|] == body;
    RunAppend(cfg, INIT, 0, body, " ");
    RunCons(cfg, end, |body|, " ");
    assert " "[0] == ' ' && " "[1..] == "";
    RunNone(cfg, Step(cfg, end, |body|, ' '), |body| + 1);
    FinishIsBlank(cfg, end, |body|);
    BlankAfter(cfg, end, |body|);
    if !Alive(t) {
      RunRefused(cfg, t, j, d.post + " ");
    } else {
      AbsorbShape(cfg, INIT, |d.pre|, v);
      RunBlank(cfg, t, j, d.post + " ");
    }
  }

  // ---------------------------------------------------------------- an object

  /** The marks once the root's `{`, before `open`, was read. */
  function Opened(cfg: Config, open: nat): Marks {
    if cfg.mask != {} then START.marks.(openAt := Some(open)) else START.marks
  }

  /** The spans of an object's text. */
  function TreeSpans(cfg: Config, d: Doc): Marks
    requires d.value.Obj?
  {
    Spans(TellAll(cfg, Opened(cfg, |d.pre| + 1), |d.pre| + 1, |d.pre| + 1, d.value.members))
  }

  lemma SettleSpans(cfg: Config, c: Core, end: nat)
    ensures Spans(Settle(cfg, LeaveOptions(c, 0), 0, end).marks) == Spans(c.marks)
  {}

  lemma TellSpans(cfg: Config, a: Marks, b: Marks, sep: nat, at: nat, members: seq<Member>)
    requires Spans(a) == Spans(b)
    ensures Spans(TellAll(cfg, a, sep, at, members)) == Spans(TellAll(cfg, b, sep, at, members))
  {
    hide Told;
    if members != [] { TellIgnoresHold(cfg, a, b, sep, at, members); }
  }

  lemma RootOpened(cfg: Config, at: nat)
    ensures var b := Begin(cfg, INIT, at, '{');
            HeldAt(cfg, b.core, at + 1) && Spans(b.core.marks) == Spans(Opened(cfg, at + 1))
  {
    hide Begin;
    RootObject(cfg, at);
  }

  lemma ObjectSpans(cfg: Config, at: nat, v: Value)
    requires ValueOk(v) && v.Obj? && Alive(Absorb(cfg, INIT, at, v))
    ensures Spans(Absorb(cfg, INIT, at, v).core.marks)
            == Spans(TellAll(cfg, Opened(cfg, at + 1), at + 1, at + 1, v.members))
  {
    hide Begin, AbsorbMembers, MembersText, Settle, LeaveOptions, AtMember, TellAll, Spans, FitFrom, HeldAt, MembersCore, Opened;
    var b, ms := Begin(cfg, INIT, at, '{'), v.members;
    RootObject(cfg, at);
    RootOpened(cfg, at);
    TellSpans(cfg, b.core.marks, Opened(cfg, at + 1), at + 1, at + 1, ms);
    if ms == [] {
      TellNone(cfg, b.core.marks, at + 1, at + 1);
      CloseSpans(cfg, b, at + 1 + |v.gap|);
    } else {
      RootStart(cfg, at, ms);
      assert ms[0..] == ms;
      RootMembers(cfg, b, at + 1, ms, 0);
      MembersMarks(cfg, b, at + 1, at + 1, ms, 0);
      SettleSpans(cfg, MembersCore(cfg, b.core, at + 1, ms), at + 1 + |MembersText(ms)| + 1);
    }
  }

  lemma TellNone(cfg: Config, m: Marks, sep: nat, at: nat)
    ensures TellAll(cfg, m, sep, at, []) == m
  {}

  lemma CloseSpans(cfg: Config, b: Scan, i: nat)
    requires |b.stack| == 1
    ensures Spans(Close(cfg, b, i).core.marks) == Spans(b.core.marks)
  {}

  /** The finished scan of an object tells the spans its members have in the tree. */
  lemma ScanSpans(cfg: Config, d: Doc)
    requires DocOk(d) && d.value.Obj? && Done(Verdict(cfg, DocText(d)))
    ensures Spans(At(cfg, DocText(d), |DocText(d)|).core.marks) == TreeSpans(cfg, d)
  {
    hide Absorb, At, Verdict, TellAll, Spans;
    EndsAtTree(cfg, d);
    ObjectSpans(cfg, |d.pre|, d.value);
  }

  // ---------------------------------------------------------------- any other root

  lemma {:induction false} ItemsNoSpans(cfg: Config, b: Scan, at: nat, items: seq<Item>)
    requires Alive(b) && Expects(b) && b.stack == [InArr] && b.core == START
    requires items != [] && (forall it <- items :: ItemOk(it)) && Alive(AbsorbItems(cfg, b, at, items))
    ensures Spans(AbsorbItems(cfg, b, at, items).core.marks) == START.marks
    decreases items
  {
    hide Absorb, Close;
    var it := items[0];
    assert ItemOk(it);
    AbsorbQuiet(cfg, b, at + |it.pre|, it.value);
    var t, j := Absorb(cfg, b, at + |it.pre|, it.value), at + |ItemText(it)|;
    if Alive(t) {
      assert t == b.(st := ArrNext);
      if |items| > 1 { ItemsNoSpans(cfg, Await(t), j + 1, items[1..]); } else { CloseSpans(cfg, t, j); }
    } else if |items| > 1 {
      ItemsRefused(cfg, t, j + 1, items[1..]);
    }
  }

  /** A body that is no object has no spans, and no members may be spliced into it. */
  lemma NoSpans(cfg: Config, d: Doc)
    requires DocOk(d) && !d.value.Obj? && Done(Verdict(cfg, DocText(d)))
    ensures cfg.mask == {} && Spans(At(cfg, DocText(d), |DocText(d)|).core.marks) == START.marks
  {
    hide AbsorbItems, At, Verdict, Close, Settle;
    EndsAtTree(cfg, d);
    var v, at := d.value, |d.pre|;
    RootFits(cfg, at, v);
    var b := Begin(cfg, INIT, at, First(v));
    if v.Arr? {
      assert [] + [InArr] == [InArr];
      if v.items != [] { ItemsNoSpans(cfg, b, at + 1, v.items); } else { CloseSpans(cfg, b, at + 1 + |v.gap|); }
    } else {
      ScalarSpans(cfg, b, at + |Text(v)|);
      ScalarRest(cfg, b, at, v);
    }
  }

  lemma ScalarSpans(cfg: Config, b: Scan, end: nat)
    requires b.stack == []
    ensures Spans(ValueDone(cfg, b, end).core.marks) == Spans(b.core.marks)
  {}
}
