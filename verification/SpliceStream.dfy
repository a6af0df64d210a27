/** The splice over a whole upload: however the bytes arrive, the ranges sent at successive safe
    points, each with only the spans known then, make up the splice of the whole body, and its
    length is the one declared before any of it was seen.
 */
module SpliceStream {
  import opened Json
  import opened Options
  import opened Automaton
  import opened SafePoints
  import opened Splicing

  /** The splice replaces no member the scan did not track, and substitutes both halves or none. */
  predicate Suits(cfg: Config, sp: Splice) {
    && sp.members.Mask() <= cfg.mask
    && (sp.model.sentinel != "" ==> cfg.trackModel)
    && (sp.model.sentinel == "" ==> sp.model.replacement == "")
  }

  // ---------------------------------------------------------------- what is known early stays

  /** Marks `a`, known with `part` of `body` arrived and `p` bytes safe, and later marks `b`. */
  predicate Known(part: string, body: string, a: Marks, p: nat, b: Marks, q: nat) {
    && part <= body && p <= |part| && Later(a, p, b, q)
    && (a.modelEnd.Some? ==> a.modelAt.Some? && a.modelAt.value < a.modelEnd.value <= p)
  }

  lemma BlankedEarly(sp: Splice, part: string, body: string, a: Marks, p: nat, b: Marks, q: nat, i: nat)
    requires Known(part, body, a, p, b, q) && i < p
    ensures Blanked(sp, a, i) == Blanked(sp, b, i)
  {
    if Blanked(sp, a, i) {
      var k :| 0 <= k < |a.found| && a.found[k].field in sp.members.Mask() && a.found[k].at <= i < a.found[k].end;
      assert b.found[k] == a.found[k];
    }
    if Blanked(sp, b, i) {
      var k :| 0 <= k < |b.found| && b.found[k].field in sp.members.Mask() && b.found[k].at <= i < b.found[k].end;
      assert k < |a.found| && a.found[k] == b.found[k];
    }
  }

  lemma HitEarly(sp: Splice, part: string, body: string, a: Marks, p: nat, b: Marks, q: nat)
    requires Known(part, body, a, p, b, q) && a.modelEnd.Some?
    ensures sp.Hit(part, a) == sp.Hit(body, b)
  {
    var at, end := a.modelAt.value, a.modelEnd.value;
    if end - at == |sp.model.sentinel| + 2 {
      assert part[at + 1..end - 1] == body[at + 1..end - 1];
    }
  }

  lemma ByteEarly(sp: Splice, part: string, body: string, a: Marks, p: nat, b: Marks, q: nat, i: nat)
    requires Known(part, body, a, p, b, q) && i < p
    ensures Byte(sp, part, a, i) == Byte(sp, body, b, i)
  {
    hide Blanked;
    BlankedEarly(sp, part, body, a, p, b, q, i);
    if a.modelEnd.Some? { HitEarly(sp, part, body, a, p, b, q); }
  }

  lemma {:induction false} ImageEarly(sp: Splice, part: string, body: string, a: Marks, p: nat, b: Marks, q: nat, i: nat, j: nat)
    requires Known(part, body, a, p, b, q) && i <= j <= p
    ensures Image(sp, part, a, i, j) == Image(sp, body, b, i, j)
    decreases j
  {
    hide Byte;
    if i < j {
      ImageEarly(sp, part, body, a, p, b, q, i, j - 1);
      ByteEarly(sp, part, body, a, p, b, q, j - 1);
    }
  }

  lemma InsertionEarly(sp: Splice, part: string, body: string, a: Marks, p: nat, b: Marks, q: nat)
    requires Known(part, body, a, p, b, q) && a.openAt.Some? && a.openAt.value < p
    ensures Insertion(sp, a) == Insertion(sp, b)
  {
    hide MembersText;
    if FirstBlanked(sp, a) {
      var k :| 0 <= k < |a.found| && a.found[k].field in sp.members.Mask() && a.openAt == Some(a.found[k].at);
      assert b.found[k] == a.found[k];
    }
    if FirstBlanked(sp, b) {
      var k :| 0 <= k < |b.found| && b.found[k].field in sp.members.Mask() && b.openAt == Some(b.found[k].at);
      assert k < |a.found| && a.found[k] == b.found[k];
    }
  }

  /** A range below the safe point goes as the finished scan would send it. */
  lemma RangeEarly(sp: Splice, part: string, body: string, a: Marks, p: nat, b: Marks, q: nat, i: nat, j: nat)
    requires Known(part, body, a, p, b, q) && i <= j <= p
    ensures Range(sp, part, a, i, j) == Range(sp, body, b, i, j)
  {
    hide Image, Insertion;
    ImageEarly(sp, part, body, a, p, b, q, i, j);
    if Inserts(sp, a, i, j) {
      ImageEarly(sp, part, body, a, p, b, q, i, a.openAt.value);
      ImageEarly(sp, part, body, a, p, b, q, a.openAt.value, j);
      InsertionEarly(sp, part, body, a, p, b, q);
    }
  }

  // ---------------------------------------------------------------- arrivals

  /** Body lengths after each arrival: growing, up to at most the whole. */
  predicate Arrivals(body: string, cuts: seq<nat>) {
    && (forall k | 0 <= k < |cuts| :: cuts[k] <= |body|)
    && (forall k, l | 0 <= k < l < |cuts| :: cuts[k] <= cuts[l])
  }

  function SentUpTo(cfg: Config, body: string, cuts: seq<nat>): nat
    requires Arrivals(body, cuts)
  {
    if cuts == [] then 0 else SafeAt(cfg, body, cuts[|cuts| - 1])
  }

  /** The bytes staged after these arrivals, each range spliced with the spans known when it went. */
  function Streamed(cfg: Config, sp: Splice, body: string, cuts: seq<nat>): string
    requires Arrivals(body, cuts) && (cuts == [] || Alive(At(cfg, body, cuts[|cuts| - 1])))
    decreases |cuts|
  {
    if cuts == [] then ""
    else
      var before, n := cuts[..|cuts| - 1], cuts[|cuts| - 1];
      ArrivalsPrefix(cfg, body, cuts);
      Streamed(cfg, sp, body, before) +
      Sent(sp, body[..n], At(cfg, body, n).core.marks, SentUpTo(cfg, body, before), SafeAt(cfg, body, n), |body|)
  }

  lemma ArrivalsPrefix(cfg: Config, body: string, cuts: seq<nat>)
    requires Arrivals(body, cuts) && cuts != [] && Alive(At(cfg, body, cuts[|cuts| - 1]))
    ensures var before, n := cuts[..|cuts| - 1], cuts[|cuts| - 1];
            && Arrivals(body, before) && (before == [] || Alive(At(cfg, body, before[|before| - 1])))
            && SentUpTo(cfg, body, before) <= SafeAt(cfg, body, n) <= n
  {
    hide Step, Run;
    var before, n := cuts[..|cuts| - 1], cuts[|cuts| - 1];
    SafeGrows(cfg, body, n, n);
    if before != [] { SafeGrows(cfg, body, before[|before| - 1], n); }
  }

  lemma KnownAt(cfg: Config, body: string, n: nat, k: nat)
    requires n <= k <= |body| && Alive(At(cfg, body, k))
    ensures Known(body[..n], body, At(cfg, body, n).core.marks, SafeAt(cfg, body, n),
                  At(cfg, body, k).core.marks, SafeAt(cfg, body, k))
  {
    hide Step, Run, Shape, Ordered;
    SafeGrows(cfg, body, n, k);
    SafeGrows(cfg, body, n, n);
    StartGood(cfg);
    RunGood(cfg, INIT, 0, body[..n]);
    var s := At(cfg, body, n);
    assert s.core.marks.modelEnd.Some? ==> s.core.marks.modelAt.Some? by { ModelTold(cfg, s); }
  }

  lemma ModelTold(cfg: Config, s: Scan)
    requires Shape(cfg, s)
    ensures s.core.marks.modelEnd.Some? ==> s.core.marks.modelAt.Some?
  {}

  /** Before its last byte arrives, what went is the whole splice cut at the safe point. */
  lemma {:induction false} StreamedPrefix(cfg: Config, sp: Splice, body: string, cuts: seq<nat>, k: nat)
    requires Arrivals(body, cuts) && (forall n <- cuts :: n <= k && n < |body|) && k <= |body|
    requires Alive(At(cfg, body, k)) && (cuts == [] || Alive(At(cfg, body, cuts[|cuts| - 1])))
    ensures SentUpTo(cfg, body, cuts) <= k
    ensures Streamed(cfg, sp, body, cuts) == Range(sp, body, At(cfg, body, k).core.marks, 0, SentUpTo(cfg, body, cuts))
    decreases |cuts|
  {
    hide At, Range, SafeAt;
    if cuts == [] {
      RangeNone(sp, body, At(cfg, body, k).core.marks, 0);
      return;
    }
    var before, n := cuts[..|cuts| - 1], cuts[|cuts| - 1];
    var m := At(cfg, body, k).core.marks;
    assert n in cuts && forall x <- before :: x in cuts;
    ArrivalsPrefix(cfg, body, cuts);
    StreamedPrefix(cfg, sp, body, before, k);
    KnownAt(cfg, body, n, k);
    var p, q := SentUpTo(cfg, body, before), SafeAt(cfg, body, n);
    RangeEarly(sp, body[..n], body, At(cfg, body, n).core.marks, q, m, SafeAt(cfg, body, k), p, q);
    RangeSplit(sp, body, m, 0, p, q);
  }

  lemma RangeNone(sp: Splice, body: string, m: Marks, i: nat)
    requires i <= |body|
    ensures Range(sp, body, m, i, i) == ""
  {}

  /** The splice of the whole body, once scanned. */
  function Whole(cfg: Config, sp: Splice, body: string): string {
    Sent(sp, body, At(cfg, body, |body|).core.marks, 0, |body|, |body|)
  }

  lemma DoneSafe(cfg: Config, body: string)
    requires Done(Verdict(cfg, body))
    ensures Alive(At(cfg, body, |body|)) && SafeAt(cfg, body, |body|) == |body|
    ensures Verdict(cfg, body).core == At(cfg, body, |body|).core
  {
    hide Step, Run, Places, Ordered;
    assert body[..|body|] == body;
    StartGood(cfg);
    RunGood(cfg, INIT, 0, body);
  }

  /** Chunk by chunk equals whole: for every body the scan takes and every partition into arrivals. */
  lemma StreamedIsWhole(cfg: Config, sp: Splice, body: string, cuts: seq<nat>)
    requires Done(Verdict(cfg, body)) && Arrivals(body, cuts) && (forall n <- cuts :: n < |body|)
    ensures Arrivals(body, cuts + [|body|]) && Alive(At(cfg, body, |body|))
    ensures Streamed(cfg, sp, body, cuts + [|body|]) == Whole(cfg, sp, body)
  {
    hide At, SafeAt, Range, Verdict;
    var all := cuts + [|body|];
    DoneSafe(cfg, body);
    assert all[..|all| - 1] == cuts;
    ArrivalsPrefix(cfg, body, all);
    StreamedPrefix(cfg, sp, body, cuts, |body|);
    var m, p := At(cfg, body, |body|).core.marks, SentUpTo(cfg, body, cuts);
    assert body[..|body|] == body;
    RangeSplit(sp, body, m, 0, p, |body|);
  }

  // ---------------------------------------------------------------- the declared length

  /** The marks of a body scanned whole. */
  predicate Final(cfg: Config, body: string, m: Marks) {
    && Ordered(m)
    && (m.modelEnd.Some? ==> m.modelAt.Some? && m.modelAt.value < m.modelEnd.value < |body|)
    && (forall k | 0 <= k < |m.found| :: m.found[k].at < m.found[k].end < |body|)
    && (cfg.mask != {} ==> m.openAt.Some?)
    && (m.openAt.Some? ==> m.openAt.value < |body|)
  }

  lemma DoneFinal(cfg: Config, body: string)
    requires Done(Verdict(cfg, body))
    ensures Final(cfg, body, At(cfg, body, |body|).core.marks)
  {
    hide Step, Run, Ordered;
    assert body[..|body|] == body;
    StartGood(cfg);
    RunGood(cfg, INIT, 0, body);
    DoneSafe(cfg, body);
    var end := Run(cfg, INIT, 0, body);
    if !end.st.End? { RootNumber(cfg, end); }
  }

  /** A root that is a number tracks nothing. */
  lemma RootNumber(cfg: Config, s: Scan)
    requires Shape(cfg, s) && s.stack == [] && InScalar(s.st)
    ensures cfg.mask == {}
    ensures var m := s.core.marks; m.openAt.None? && m.modelEnd.None? && m.found == []
  {}

  lemma {:induction false} ImageLength(sp: Splice, body: string, m: Marks, a: nat, b: nat)
    requires a <= b <= |body|
    requires sp.Hit(body, m) ==> b <= m.modelAt.value || m.modelEnd.value <= a
    ensures |Image(sp, body, m, a, b)| == b - a
    decreases b
  {
    hide Blanked;
    if a < b { ImageLength(sp, body, m, a, b - 1); }
  }

  lemma NotBlanked(sp: Splice, body: string, m: Marks, i: nat)
    requires Ordered(m) && m.modelAt.Some? && m.modelEnd.Some? && m.modelAt.value <= i < m.modelEnd.value
    ensures !Blanked(sp, m, i)
  {}

  /** The substituted value changes the length by what the replacement adds. */
  lemma ModelLength(sp: Splice, body: string, m: Marks, a: nat, b: nat)
    requires Ordered(m) && sp.Hit(body, m) && a <= m.modelAt.value && m.modelEnd.value <= b <= |body|
    ensures |Image(sp, body, m, a, b)| == b - a + |sp.model.Value()| - (|sp.model.sentinel| + 2)
  {
    hide Image, Byte, Blanked;
    var at, end := m.modelAt.value, m.modelEnd.value;
    forall i: nat | at <= i < end ensures !Blanked(sp, m, i) { NotBlanked(sp, body, m, i); }
    ImageModel(sp, body, m, end);
    ImageSplit(sp, body, m, a, at, b);
    ImageSplit(sp, body, m, at, end, b);
    ImageLength(sp, body, m, a, at);
    ImageLength(sp, body, m, end, b);
  }

  function TextSize(members: seq<Member>): nat {
    if members == [] then 0 else |MemberText(members[0])| + 1 + TextSize(members[1..])
  }

  lemma {:induction false} MembersTextSize(members: seq<Member>)
    requires members != []
    ensures |MembersText(members)| + 1 == TextSize(members)
    decreases |members|
  {
    hide MemberText;
    if |members| > 1 { MembersTextSize(members[1..]); }
  }

  lemma {:induction false} TextSizeSum(a: seq<Member>, b: seq<Member>)
    ensures TextSize(a + b) == TextSize(a) + TextSize(b)
    decreases |a|
  {
    hide MemberText;
    if a == [] {
      assert a + b == b;
    } else {
      assert (a + b)[1..] == a[1..] + b;
      TextSizeSum(a[1..], b);
    }
  }

  lemma MemberOfSize(ms: MemberSplice, f: Field)
    ensures TextSize(ms.MemberOf(f)) == ms.GrowOf(f)
  {
    if ms.Of(f) != "" {
      var m := ms.MemberOf(f)[0];
      assert ms.MemberOf(f)[1..] == [];
      assert Text(m.value) == "\"" + ms.Of(f) + "\"";
      assert |MemberHead(m)| == |FieldKey(f)| + 3;
    }
  }

  lemma InsertionLength(sp: Splice, m: Marks)
    ensures |Insertion(sp, m)| == sp.members.Grow()
  {
    hide FirstBlanked, MemberText;
    var ms := sp.members;
    var a, b, c := ms.MemberOf(ServiceTier), ms.MemberOf(Speed), ms.MemberOf(InferenceGeo);
    TextSizeSum(a, b);
    TextSizeSum(a + b, c);
    MemberOfSize(ms, ServiceTier);
    MemberOfSize(ms, Speed);
    MemberOfSize(ms, InferenceGeo);
    if ms.Members() != [] { MembersTextSize(ms.Members()); }
  }

  /** The venue gets exactly the declared length, whether or not the model was the sentinel. */
  lemma WholeLength(cfg: Config, sp: Splice, body: string)
    requires Done(Verdict(cfg, body)) && Suits(cfg, sp)
    ensures |Whole(cfg, sp, body)| == |body| + sp.Grow()
  {
    hide At, Image, Insertion, Ordered, Verdict;
    DoneFinal(cfg, body);
    var m, n := At(cfg, body, |body|).core.marks, |body|;
    assert |Range(sp, body, m, 0, n)| == |Image(sp, body, m, 0, n)| + sp.members.Grow() by {
      InsertionLength(sp, m);
      if Inserts(sp, m, 0, n) { ImageSplit(sp, body, m, 0, m.openAt.value, n); }
      else { NoMembers(sp.members); }
    }
    if sp.Hit(body, m) {
      ModelLength(sp, body, m, 0, n);
    } else {
      ImageLength(sp, body, m, 0, n);
    }
  }

  lemma NoMembers(ms: MemberSplice)
    ensures ms.Mask() == {} ==> ms.Grow() == 0
  {
    assert forall f: Field :: f in ms.Mask() <==> ms.Of(f) != "";
  }
}
