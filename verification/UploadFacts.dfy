/** What holds of the spans and the bytes staged at every moment of an upload. */
module UploadFacts {
  import opened Automaton
  import opened SafePoints
  import opened Splicing
  import opened SpliceStream
  import opened SpliceAppend

  /** The marks once `part` was scanned. */
  function MarksOf(cfg: Config, part: string): Marks { At(cfg, part, |part|).core.marks }

  function SafeOf(cfg: Config, part: string): nat { SafeAt(cfg, part, |part|) }

  predicate AliveOn(cfg: Config, part: string) { Alive(At(cfg, part, |part|)) }

  // ---------------------------------------------------------------- spans at a safe point

  function FieldSet(found: seq<Span>): set<Field> { set k | 0 <= k < |found| :: found[k].field }

  lemma {:induction false} FieldCount(found: seq<Span>)
    requires forall k, l | 0 <= k < l < |found| :: found[k].field != found[l].field
    ensures |FieldSet(found)| == |found|
    decreases |found|
  {
    if found != [] {
      var n := |found| - 1;
      FieldCount(found[..n]);
      FieldSetNext(found);
    }
  }

  lemma FieldSetNext(found: seq<Span>)
    requires found != [] && forall k, l | 0 <= k < l < |found| :: found[k].field != found[l].field
    ensures var n := |found| - 1;
            FieldSet(found) == FieldSet(found[..n]) + {found[n].field} && found[n].field !in FieldSet(found[..n])
  {
    var n := |found| - 1;
    assert forall k | 0 <= k < n :: found[..n][k] == found[k];
  }

  lemma FewFields(found: seq<Span>)
    requires forall k, l | 0 <= k < l < |found| :: found[k].field != found[l].field
    ensures |found| <= 3
  {
    FieldCount(found);
    var all := {ServiceTier, Speed, InferenceGeo};
    assert FieldSet(found) <= all;
    SubsetSize(FieldSet(found), all);
  }

  lemma {:induction false} SubsetSize<T>(a: set<T>, b: set<T>)
    requires a <= b
    ensures |a| <= |b|
    decreases |a|
  {
    if a != {} {
      var x :| x in a;
      SubsetSize(a - {x}, b - {x});
    }
  }

  lemma SaneAt(cfg: Config, part: string)
    requires AliveOn(cfg, part)
    ensures Sane(cfg, At(cfg, part, |part|), |part|)
  {
    hide Step, Run, Shape, Places, Ordered, FieldsApart;
    assert part[..|part|] == part;
    StartGood(cfg);
    RunGood(cfg, INIT, 0, part);
  }

  /** Spans are in order, few, closed, and end by the safe point. */
  lemma TidyAt(cfg: Config, part: string)
    requires AliveOn(cfg, part)
    ensures Tidy(MarksOf(cfg, part), |part|) && SafeOf(cfg, part) <= |part|
    ensures Clear(MarksOf(cfg, part), SafeOf(cfg, part)) && Clear(MarksOf(cfg, part), 0)
  {
    hide At, Ordered;
    SaneAt(cfg, part);
    var s := At(cfg, part, |part|);
    FewFields(s.core.marks.found);
    ModelTold(cfg, s);
  }

  // ---------------------------------------------------------------- what was staged stays right

  /** The bytes staged for the first `sent` bytes of `part`. */
  function Staged(cfg: Config, sp: Splice, part: string, sent: nat, bodyLen: nat): string
    requires sent <= |part|
  {
    Sent(sp, part, MarksOf(cfg, part), 0, sent, bodyLen)
  }

  /** More bytes arriving change nothing about what went, nor put what went inside a span. */
  lemma StagedStays(cfg: Config, sp: Splice, part: string, more: string, sent: nat, bodyLen: nat)
    requires AliveOn(cfg, part + more) && AliveOn(cfg, part)
    requires sent <= SafeOf(cfg, part) && Clear(MarksOf(cfg, part), sent) && sent <= |part| && sent < bodyLen
    ensures Staged(cfg, sp, part + more, sent, bodyLen) == Staged(cfg, sp, part, sent, bodyLen)
    ensures Clear(MarksOf(cfg, part + more), sent)
    ensures sent <= SafeOf(cfg, part + more)
  {
    hide At, SafeAt, Range, Clear;
    var body, n := part + more, |part|;
    assert body[..n] == part && body[..|body|] == body;
    KnownAt(cfg, body, n, |body|);
    assert At(cfg, body, n) == At(cfg, part, n) by { AtPrefix(cfg, part, more); }
    assert SafeAt(cfg, body, n) == SafeOf(cfg, part) by { SafePrefix(cfg, part, more); }
    RangeEarly(sp, part, body, MarksOf(cfg, part), SafeOf(cfg, part), MarksOf(cfg, body), SafeOf(cfg, body), 0, sent);
    ClearLater(MarksOf(cfg, part), SafeOf(cfg, part), MarksOf(cfg, body), SafeOf(cfg, body), sent);
  }

  lemma AtPrefix(cfg: Config, part: string, more: string)
    ensures At(cfg, part + more, |part|) == At(cfg, part, |part|)
  {
    assert (part + more)[..|part|] == part[..|part|];
  }

  lemma SafePrefix(cfg: Config, part: string, more: string)
    ensures SafeAt(cfg, part + more, |part|) == SafeAt(cfg, part, |part|)
  {
    hide At;
    AtPrefix(cfg, part, more);
  }

  lemma ClearLater(a: Marks, p: nat, b: Marks, q: nat, x: nat)
    requires Later(a, p, b, q) && x <= p && Clear(a, x)
    ensures Clear(b, x)
  {
    forall k | 0 <= k < |b.found| ensures !(b.found[k].at < x < b.found[k].end) {
      if k < |a.found| { assert b.found[k] == a.found[k]; }
    }
  }

  /** The next range, staged after what went, makes the longer range. */
  lemma StagedNext(cfg: Config, sp: Splice, part: string, sent: nat, next: nat, bodyLen: nat)
    requires sent <= next <= |part| && sent < bodyLen
    ensures Staged(cfg, sp, part, sent, bodyLen) + Sent(sp, part, MarksOf(cfg, part), sent, next, bodyLen)
            == Staged(cfg, sp, part, next, bodyLen)
  {
    hide At, Range;
    RangeSplit(sp, part, MarksOf(cfg, part), 0, sent, next);
  }

  // ---------------------------------------------------------------- lengths

  lemma ClearLength(cfg: Config, sp: Splice, part: string, m: Marks, s: nat)
    requires Tidy(m, |part|) && Clear(m, s) && s <= |part|
    ensures |Image(sp, part, m, 0, s)| <= s + sp.model.Grow()
  {
    hide Image, Ordered;
    if sp.Hit(part, m) && m.modelAt.value < s {
      ModelLength(sp, part, m, 0, s);
    } else {
      ImageLength(sp, part, m, 0, s);
    }
  }

  /** Short of the body's last byte, the venue is short of the length it was told. */
  lemma StagedShort(cfg: Config, sp: Splice, part: string, sent: nat, bodyLen: nat)
    requires AliveOn(cfg, part) && sent <= |part| && sent < bodyLen && Clear(MarksOf(cfg, part), sent)
    ensures |Staged(cfg, sp, part, sent, bodyLen)| < bodyLen + sp.Grow()
  {
    hide At, Image, Tidy, Clear, Insertion;
    var m := MarksOf(cfg, part);
    TidyAt(cfg, part);
    ClearLength(cfg, sp, part, m, sent);
    if Inserts(sp, m, 0, sent) {
      InsertionLength(sp, m);
      ImageSplit(sp, part, m, 0, m.openAt.value, sent);
    }
  }

  /** At the body's last byte, the venue has exactly the length it was told. */
  lemma StagedFull(cfg: Config, sp: Splice, body: string)
    requires Done(Verdict(cfg, body)) && Suits(cfg, sp)
    ensures |Staged(cfg, sp, body, |body|, |body|)| == |body| + sp.Grow()
  {
    hide At, Verdict, Range;
    WholeLength(cfg, sp, body);
  }
}
