/** `Splice::append` as the original runs it: the spans to replace are gathered into a small
    array, sorted in place, and the range is copied around them.
 */
module SpliceAppend {
  import opened Json
  import opened Options
  import opened Automaton
  import opened SafePoints
  import opened Splicing
  import opened Sorting

  /** A span the splice replaces: the model's value, or a member of the client's. */
  datatype Cut = Cut(at: nat, end: nat, model: bool)

  const MAX_CUTS: nat := 4

  // ---------------------------------------------------------------- what append is given

  /** The scan's spans, in order, inside a body of `n` bytes. */
  predicate Tidy(m: Marks, n: nat) {
    && Ordered(m) && |m.found| <= 3
    && (m.modelEnd.Some? ==> m.modelAt.Some? && m.modelAt.value < m.modelEnd.value <= n)
    && (forall k | 0 <= k < |m.found| :: m.found[k].at < m.found[k].end <= n)
  }

  /** `x` is not strictly inside a span. */
  predicate Clear(m: Marks, x: nat) {
    && (forall k | 0 <= k < |m.found| :: !(m.found[k].at < x < m.found[k].end))
    && (m.modelEnd.Some? && m.modelAt.Some? ==> !(m.modelAt.value < x < m.modelEnd.value))
  }

  const CutAt: Cut -> nat := (c: Cut) => c.at

  ghost predicate IsCut(sp: Splice, body: string, m: Marks, c: Cut) {
    if c.model then sp.Hit(body, m) && c.at == m.modelAt.value && c.end == m.modelEnd.value
    else exists k | 0 <= k < |m.found| :: m.found[k].field in sp.members.Mask() && c.at == m.found[k].at && c.end == m.found[k].end
  }

  predicate Apart(c: Cut, d: Cut) { c.end <= d.at || d.end <= c.at }

  ghost predicate AllApart(cuts: seq<Cut>) {
    forall p, q | 0 <= p < q < |cuts| :: Apart(cuts[p], cuts[q])
  }

  // ---------------------------------------------------------------- gathering

  /** The cuts for the first `k` members told. */
  function MemberCuts(sp: Splice, m: Marks, k: nat): (r: seq<Cut>)
    requires k <= |m.found|
    ensures |r| <= k
  {
    if k == 0 then []
    else
      var before, f := MemberCuts(sp, m, k - 1), m.found[k - 1];
      if f.field in sp.members.Mask() then before + [Cut(f.at, f.end, false)] else before
  }

  /** The cut for one of the first `k` members told. */
  predicate FromMember(sp: Splice, m: Marks, k: nat, c: Cut)
    requires k <= |m.found|
  {
    !c.model &&
    exists l | 0 <= l < k :: m.found[l].field in sp.members.Mask() && c.at == m.found[l].at && c.end == m.found[l].end
  }

  lemma {:induction false} MemberCutsAre(sp: Splice, m: Marks, k: nat)
    requires k <= |m.found|
    ensures forall c :: c in MemberCuts(sp, m, k) <==> FromMember(sp, m, k, c)
  {
    if k > 0 {
      MemberCutsAre(sp, m, k - 1);
      var f := m.found[k - 1];
      forall c ensures c in MemberCuts(sp, m, k) <==> FromMember(sp, m, k, c) {
        assert FromMember(sp, m, k, c) <==>
               FromMember(sp, m, k - 1, c) || (f.field in sp.members.Mask() && c == Cut(f.at, f.end, false));
      }
    }
  }

  lemma {:induction false} MemberCutsApart(sp: Splice, m: Marks, k: nat)
    requires k <= |m.found| && Ordered(m)
    ensures AllApart(MemberCuts(sp, m, k))
  {
    if k > 0 {
      MemberCutsApart(sp, m, k - 1);
      MemberCutsAre(sp, m, k - 1);
      var before := MemberCuts(sp, m, k - 1);
      forall p | 0 <= p < |before| ensures before[p].end <= m.found[k - 1].at { assert before[p] in before; }
    }
  }

  /** Every cut: the members', then the model's if it is the sentinel. */
  function AllCuts(sp: Splice, body: string, m: Marks): (r: seq<Cut>)
    ensures |r| <= |m.found| + 1
  {
    MemberCuts(sp, m, |m.found|) +
    (if sp.Hit(body, m) then [Cut(m.modelAt.value, m.modelEnd.value, true)] else [])
  }

  lemma AllCutsAre(sp: Splice, body: string, m: Marks)
    requires Tidy(m, |body|)
    ensures AllApart(AllCuts(sp, body, m)) && forall c :: c in AllCuts(sp, body, m) <==> IsCut(sp, body, m, c)
  {
    MemberCutsAre(sp, m, |m.found|);
    MemberCutsApart(sp, m, |m.found|);
    var ms := MemberCuts(sp, m, |m.found|);
    if sp.Hit(body, m) {
      var model := Cut(m.modelAt.value, m.modelEnd.value, true);
      forall p | 0 <= p < |ms| ensures Apart(ms[p], model) { assert ms[p] in ms; }
    }
    forall c ensures c in AllCuts(sp, body, m) <==> IsCut(sp, body, m, c) {}
  }

  /** Some of the first `k` members told is the root's first, and replaced. */
  predicate FirstAmong(sp: Splice, m: Marks, k: nat)
    requires k <= |m.found|
  {
    exists l | 0 <= l < k :: m.found[l].field in sp.members.Mask() && m.openAt == Some(m.found[l].at)
  }

  lemma FirstNext(sp: Splice, m: Marks, k: nat)
    requires k < |m.found|
    ensures FirstAmong(sp, m, k + 1) <==>
            FirstAmong(sp, m, k) || (m.found[k].field in sp.members.Mask() && m.openAt == Some(m.found[k].at))
  {}

  lemma CutsNext(sp: Splice, m: Marks, k: nat)
    requires k < |m.found|
    ensures MemberCuts(sp, m, k + 1)
            == MemberCuts(sp, m, k) +
               if m.found[k].field in sp.members.Mask() then [Cut(m.found[k].at, m.found[k].end, false)] else []
  {}

  method PutCut(cuts: array<Cut>, n: nat, c: Cut)
    requires n < cuts.Length
    modifies cuts
    ensures cuts[..n + 1] == old(cuts[..n]) + [c]
  {
    cuts[n] := c;
  }

  /** Gathers the members' cuts. */
  method GatherMembers(sp: Splice, m: Marks, cuts: array<Cut>) returns (n: nat, firstCut: bool)
    requires |m.found| <= 3 && cuts.Length == MAX_CUTS
    modifies cuts
    ensures n <= 3 && cuts[..n] == MemberCuts(sp, m, |m.found|) && firstCut == FirstBlanked(sp, m)
  {
    hide FirstAmong, FirstBlanked, MemberCuts;
    n, firstCut := 0, false;
    FirstEnds(sp, m);
    assert MemberCuts(sp, m, 0) == [] by { CutsNone(sp, m); }
    for k := 0 to |m.found|
      invariant n <= k && cuts[..n] == MemberCuts(sp, m, k)
      invariant firstCut <==> FirstAmong(sp, m, k)
    {
      FirstNext(sp, m, k);
      CutsNext(sp, m, k);
      if m.found[k].field in sp.members.Mask() {
        PutCut(cuts, n, Cut(m.found[k].at, m.found[k].end, false));
        n := n + 1;
        firstCut := firstCut || m.openAt == Some(m.found[k].at);
      }
    }
  }

  lemma CutsNone(sp: Splice, m: Marks)
    ensures MemberCuts(sp, m, 0) == []
  {}

  /** Gathers the cuts. */
  method Gather(sp: Splice, body: string, m: Marks) returns (cuts: array<Cut>, n: nat, firstCut: bool)
    requires Tidy(m, |body|)
    ensures fresh(cuts) && n <= cuts.Length && cuts[..n] == AllCuts(sp, body, m)
    ensures firstCut == FirstBlanked(sp, m)
  {
    hide Tidy, FirstBlanked, MemberCuts;
    TidyFew(m, |body|);
    cuts := new Cut[MAX_CUTS](_ => Cut(0, 0, false));
    n, firstCut := GatherMembers(sp, m, cuts);
    if sp.Hit(body, m) {
      PutCut(cuts, n, Cut(m.modelAt.value, m.modelEnd.value, true));
      n := n + 1;
    }
  }

  lemma FirstEnds(sp: Splice, m: Marks)
    ensures !FirstAmong(sp, m, 0) && (FirstAmong(sp, m, |m.found|) <==> FirstBlanked(sp, m))
  {}

  lemma TidyFew(m: Marks, n: nat)
    requires Tidy(m, n)
    ensures |m.found| <= 3
  {}

  // ---------------------------------------------------------------- copying around the cuts

  /** No byte of [a, b) is in a cut. */
  lemma PlainBetween(sp: Splice, body: string, m: Marks, a: nat, b: nat)
    requires Tidy(m, |body|) && a <= b <= |body|
    requires forall c | IsCut(sp, body, m, c) :: c.end <= a || b <= c.at
    ensures Image(sp, body, m, a, b) == body[a..b]
  {
    forall k | 0 <= k < |m.found| && m.found[k].field in sp.members.Mask()
      ensures m.found[k].end <= a || b <= m.found[k].at
    {
      assert IsCut(sp, body, m, Cut(m.found[k].at, m.found[k].end, false));
    }
    if sp.Hit(body, m) { assert IsCut(sp, body, m, Cut(m.modelAt.value, m.modelEnd.value, true)); }
    ImagePlain(sp, body, m, a, b);
  }

  /** What a cut goes as. */
  function CutText(sp: Splice, c: Cut): string
    requires c.at <= c.end
  {
    if c.model then sp.model.Value() else Spaces(c.end - c.at)
  }

  lemma ImageCut(sp: Splice, body: string, m: Marks, c: Cut)
    requires Tidy(m, |body|) && IsCut(sp, body, m, c)
    ensures c.at < c.end <= |body| && Image(sp, body, m, c.at, c.end) == CutText(sp, c)
  {
    if c.model {
      forall i: nat | c.at <= i < c.end ensures !Blanked(sp, m, i) {}
      ImageModel(sp, body, m, c.end);
    } else {
      var k :| 0 <= k < |m.found| && m.found[k].field in sp.members.Mask() && c.at == m.found[k].at && c.end == m.found[k].end;
      forall i: nat | c.at <= i < c.end ensures Blanked(sp, m, i) {}
      ImageBlank(sp, body, m, c.at, c.end);
    }
  }

  /** One more cut, and the bytes before it. */
  lemma PastCut(sp: Splice, body: string, m: Marks, a: nat, pos: nat, c: Cut)
    requires Tidy(m, |body|) && IsCut(sp, body, m, c) && a <= pos <= c.at
    requires forall d | IsCut(sp, body, m, d) :: d.end <= pos || c.at <= d.at
    ensures c.at < c.end <= |body|
    ensures Image(sp, body, m, a, c.end) == Image(sp, body, m, a, pos) + body[pos..c.at] + CutText(sp, c)
  {
    hide Image, Tidy, IsCut, CutText;
    ImageCut(sp, body, m, c);
    PlainBetween(sp, body, m, pos, c.at);
    ImageSplit(sp, body, m, a, pos, c.at);
    ImageSplit(sp, body, m, a, c.at, c.end);
  }

  lemma PastAll(sp: Splice, body: string, m: Marks, a: nat, pos: nat, b: nat)
    requires Tidy(m, |body|) && a <= pos <= b <= |body|
    requires forall d | IsCut(sp, body, m, d) :: d.end <= pos || b <= d.at
    ensures Image(sp, body, m, a, b) == Image(sp, body, m, a, pos) + body[pos..b]
  {
    hide Image, Tidy, IsCut;
    PlainBetween(sp, body, m, pos, b);
    ImageSplit(sp, body, m, a, pos, b);
  }

  /** The cuts as a list: in order, apart, and all there are. */
  ghost predicate Listed(sp: Splice, body: string, m: Marks, cuts: seq<Cut>) {
    && (forall p, q | 0 <= p < q < |cuts| :: cuts[p].end <= cuts[q].at)
    && (forall c :: c in cuts <==> IsCut(sp, body, m, c))
  }

  lemma SortedListed(sp: Splice, body: string, m: Marks, cuts: seq<Cut>, all: seq<Cut>)
    requires Tidy(m, |body|) && Ascending(cuts, CutAt) && AllApart(all) && SameElements(cuts, all)
    requires forall c :: c in all <==> IsCut(sp, body, m, c)
    ensures Listed(sp, body, m, cuts)
  {
    hide Tidy, IsCut;
    forall p, q | 0 <= p < q < |cuts| ensures cuts[p].end <= cuts[q].at {
      assert cuts[q] in cuts && cuts[p] in cuts;
      assert CutAt(cuts[p]) < CutAt(cuts[q]);
      var k :| 0 <= k < |all| && all[k] == cuts[p];
      var l :| 0 <= l < |all| && all[l] == cuts[q];
      assert Apart(all[k], all[l]);
      ImageCut(sp, body, m, cuts[q]);
      ImageCut(sp, body, m, cuts[p]);
    }
  }

  /** Copies [a, b) around the cuts. */
  method CopyAround(out0: string, sp: Splice, body: string, ghost m: Marks, cuts: seq<Cut>, a: nat, b: nat)
      returns (out: string)
    requires Listed(sp, body, m, cuts) && Tidy(m, |body|) && a <= b <= |body|
    requires forall c <- cuts :: !(c.at < a < c.end) && !(c.at < b < c.end)
    ensures out == out0 + Image(sp, body, m, a, b)
  {
    hide Image, Tidy, IsCut;
    out := out0;
    var pos := a;
    ImageNone(sp, body, m, a);
    for k := 0 to |cuts|
      invariant a <= pos <= b && out == out0 + Image(sp, body, m, a, pos)
      invariant forall p | 0 <= p < k :: cuts[p].end <= pos || b <= cuts[p].at
      invariant forall p | k <= p < |cuts| :: pos <= cuts[p].at || cuts[p].end <= a
    {
      var c := cuts[k];
      assert c in cuts;
      ImageCut(sp, body, m, c);
      if pos <= c.at < b {
        PastCut(sp, body, m, a, pos, c);
        out := out + body[pos..c.at];
        if c.model {
          out := out + ("\"" + sp.model.replacement + "\"" + Spaces(sp.model.Shrink()));
        } else {
          out := out + Spaces(c.end - c.at);
        }
        pos := c.end;
      }
    }
    PastAll(sp, body, m, a, pos, b);
    if pos < b { out := out + body[pos..b]; }
  }

  // ---------------------------------------------------------------- append

  method AppendMember(out0: string, first: bool, key: string, value: string) returns (out: string)
    ensures out == out0 + ((if first then "" else ",") + MemberText(Member("", key, "", "", Str(value), "")))
  {
    hide MemberText;
    PlainMemberText(key, value);
    out := out0 + ((if first then "\"" else ",\"") + key + "\":\"" + value + "\"");
    assert ",\"" == "," + "\"";
    assert (if first then "\"" else ",\"") + key + "\":\"" + value + "\""
        == (if first then "" else ",") + ("\"" + key + "\":\"" + value + "\"");
  }

  function Listing(members: seq<Member>): string { if members == [] then "" else MembersText(members) }

  lemma ListingSnoc(members: seq<Member>, m: Member)
    ensures Listing(members + [m]) == Listing(members) + ((if members == [] then "" else ",") + MemberText(m))
  {
    hide MembersText, MemberText;
    MembersTextSnoc(members, m);
  }

  /** The members of the first `k` fields. */
  function MembersUpTo(ms: MemberSplice, k: nat): seq<Member> {
    if k == 0 then [] else if k == 1 then ms.MemberOf(ServiceTier)
    else if k == 2 then ms.MemberOf(ServiceTier) + ms.MemberOf(Speed) else ms.Members()
  }

  /** `"service_tier":"flex","speed":"fast"`: the members set, in order. */
  method AppendMembers(out0: string, ms: MemberSplice) returns (out: string)
    ensures out == out0 + Listing(ms.Members())
  {
    hide Listing, MemberText;
    var fields := [ServiceTier, Speed, InferenceGeo];
    out := out0;
    var first := true;
    ListingNone();
    for k := 0 to 3
      invariant first <==> MembersUpTo(ms, k) == []
      invariant out == out0 + Listing(MembersUpTo(ms, k))
    {
      var f := fields[k];
      assert MembersUpTo(ms, k + 1) == MembersUpTo(ms, k) + ms.MemberOf(f);
      if ms.Of(f) != "" {
        ghost var m := ms.MemberOf(f)[0];
        assert MembersUpTo(ms, k + 1) == MembersUpTo(ms, k) + [m];
        ListingSnoc(MembersUpTo(ms, k), m);
        out := AppendMember(out, first, FieldKey(f), ms.Of(f));
        first := false;
      } else {
        assert MembersUpTo(ms, k + 1) == MembersUpTo(ms, k);
      }
    }
  }

  lemma ListingNone()
    ensures Listing([]) == ""
  {}

  lemma PlainMemberText(key: string, value: string)
    ensures MemberText(Member("", key, "", "", Str(value), "")) == "\"" + key + "\":\"" + value + "\""
  {
    assert Text(Str(value)) == "\"" + value + "\"";
  }

  /** Nothing is replaced before the root's `{` closes its first byte. */
  lemma BeforeOpen(sp: Splice, body: string, m: Marks, a: nat, open: nat)
    requires Tidy(m, |body|) && m.openAt == Some(open) && a <= open <= |body|
    ensures Image(sp, body, m, a, open) == body[a..open] && Clear(m, open)
  {
    forall c | IsCut(sp, body, m, c) ensures open <= c.at {}
    PlainBetween(sp, body, m, a, open);
  }

  lemma CutsClear(sp: Splice, body: string, m: Marks, cuts: seq<Cut>, x: nat)
    requires Clear(m, x) && forall c <- cuts :: IsCut(sp, body, m, c)
    ensures forall c <- cuts :: !(c.at < x < c.end)
  {}

  lemma CutsDistinct(sp: Splice, body: string, m: Marks, cuts: seq<Cut>)
    requires Tidy(m, |body|) && AllApart(cuts) && forall c <- cuts :: IsCut(sp, body, m, c)
    ensures Distinct(cuts, CutAt)
  {
    hide Tidy, IsCut;
    forall p, q | 0 <= p < q < |cuts| ensures CutAt(cuts[p]) != CutAt(cuts[q]) {
      ImageCut(sp, body, m, cuts[p]);
      ImageCut(sp, body, m, cuts[q]);
    }
  }

  /** The cuts gathered and sorted. */
  method SortedCuts(sp: Splice, body: string, m: Marks) returns (list: seq<Cut>, firstCut: bool)
    requires Tidy(m, |body|)
    ensures Listed(sp, body, m, list) && firstCut == FirstBlanked(sp, m)
  {
    hide Tidy, IsCut, Listed, FirstBlanked;
    var cuts, n;
    cuts, n, firstCut := Gather(sp, body, m);
    AllCutsAre(sp, body, m);
    ghost var all := cuts[..n];
    CutsDistinct(sp, body, m, all);
    SortByOffset(cuts, n, CutAt);
    SortedListed(sp, body, m, cuts[..n], all);
    list := cuts[..n];
  }

  // ---------------------------------------------------------------- a substitution alone

  lemma NoneBlanked(sp: Splice, m: Marks, i: nat)
    requires sp.members.Mask() == {}
    ensures !Blanked(sp, m, i)
  {}

  /** Without members only the model's value changes. */
  lemma ModelOnly(sp: Splice, body: string, m: Marks, a: nat, b: nat)
    requires sp.members.Mask() == {} && a <= b <= |body| && Tidy(m, |body|) && Clear(m, a) && Clear(m, b)
    ensures Image(sp, body, m, a, b) ==
            if sp.Hit(body, m) && a <= m.modelAt.value < b
            then body[a..m.modelAt.value] + sp.model.Value() + body[m.modelEnd.value..b] else body[a..b]
  {
    hide Image, Blanked, Ordered;
    forall i: nat ensures !Blanked(sp, m, i) { NoneBlanked(sp, m, i); }
    if sp.Hit(body, m) && a <= m.modelAt.value < b {
      ModelAround(sp, body, m, a, b);
    } else {
      ImagePlain(sp, body, m, a, b);
    }
  }

  lemma ModelAround(sp: Splice, body: string, m: Marks, a: nat, b: nat)
    requires sp.Hit(body, m) && a <= m.modelAt.value < m.modelEnd.value <= b <= |body| && forall i: nat :: !Blanked(sp, m, i)
    ensures Image(sp, body, m, a, b) == body[a..m.modelAt.value] + sp.model.Value() + body[m.modelEnd.value..b]
  {
    hide Image, Blanked;
    var at, end := m.modelAt.value, m.modelEnd.value;
    ImagePlain(sp, body, m, a, at);
    ImageModel(sp, body, m, end);
    ImagePlain(sp, body, m, end, b);
    ImageSplit(sp, body, m, a, at, b);
    ImageSplit(sp, body, m, at, end, b);
    ThreeJoin(body[a..at], sp.model.Value(), body[end..b]);
  }

  lemma ThreeJoin(a: string, b: string, c: string)
    ensures a + (b + c) == a + b + c
  {}

  /** `ModelSplice::append`, over the one span it needs. */
  method AppendModel(out0: string, model: ModelSplice, body: string, a: nat, b: nat, bodyLen: nat,
                     at: Option<nat>, end: Option<nat>, ghost sp: Splice, ghost m: Marks) returns (out: string)
    requires sp.model == model && sp.members.Mask() == {} && model.sentinel != "" && at == m.modelAt && end == m.modelEnd
    requires Tidy(m, |body|) && a <= b <= |body| && Clear(m, a) && Clear(m, b)
    ensures out == out0 + Sent(sp, body, m, a, b, bodyLen)
  {
    hide Image, Tidy, Clear;
    ModelOnly(sp, body, m, a, b);
    var hit := model.Matches(body, at, end);
    out := out0;
    var from := a;
    if hit && from <= at.value < b {
      ModelInside(m, body, at.value, end.value, b);
      out := out + body[from..at.value] + "\"" + model.replacement + "\"";
      out := out + Spaces(model.Shrink());
      ModelJoin(out0, body[from..at.value], model.replacement, Spaces(model.Shrink()), body[end.value..b]);
      from := end.value;
    }
    if from < b { out := out + body[from..b]; }
    assert out == out0 + Image(sp, body, m, a, b);
    if b == bodyLen && !hit { out := out + Spaces(model.Grow()); }
  }

  lemma ModelInside(m: Marks, body: string, at: nat, end: nat, b: nat)
    requires Tidy(m, |body|) && Clear(m, b) && m.modelAt == Some(at) && m.modelEnd == Some(end) && at < b
    ensures at < end <= b
  {}

  lemma ModelJoin(out0: string, before: string, replacement: string, spaces: string, after: string)
    ensures out0 + (before + ("\"" + replacement + "\"" + spaces) + after)
            == out0 + before + "\"" + replacement + "\"" + spaces + after
    ensures after == "" ==> out0 + before + "\"" + replacement + "\"" + spaces + after == out0 + before + "\"" + replacement + "\"" + spaces
  {}

  /** The venue's bytes for body[a, b) of a body `bodyLen` long. */
  method Append(out0: string, sp: Splice, body: string, a: nat, b: nat, bodyLen: nat, m: Marks) returns (out: string)
    requires Tidy(m, |body|) && a <= b <= |body| && Clear(m, a) && Clear(m, b)
    ensures out == out0 + Sent(sp, body, m, a, b, bodyLen)
  {
    hide Image, Tidy, Clear, Insertion;
    if sp.members.Mask() == {} {
      if sp.model.sentinel != "" {
        out := AppendModel(out0, sp.model, body, a, b, bodyLen, m.modelAt, m.modelEnd, sp, m);
      } else {
        ModelOnly(sp, body, m, a, b);
        assert body[a..b] + "" == body[a..b];
        out := out0 + body[a..b];
      }
      return;
    }
    out := AppendAll(out0, sp, body, a, b, bodyLen, m);
  }

  /** Members, and any model substitution. */
  method AppendAll(out0: string, sp: Splice, body: string, a: nat, b: nat, bodyLen: nat, m: Marks) returns (out: string)
    requires Tidy(m, |body|) && a <= b <= |body| && Clear(m, a) && Clear(m, b) && sp.members.Mask() != {}
    ensures out == out0 + Sent(sp, body, m, a, b, bodyLen)
  {
    hide Image, Tidy, Clear, FirstBlanked;
    var list, firstCut := SortedCuts(sp, body, m);
    out := out0;
    var pos := a;
    if m.openAt.Some? && a <= m.openAt.value < b {
      pos := m.openAt.value;
      BeforeOpen(sp, body, m, a, pos);
      out := out + body[a..pos];
      out := AppendMembers(out, sp.members);
      out := out + if m.hasMember && !firstCut then "," else " ";
      assert out == out0 + (Image(sp, body, m, a, pos) + Insertion(sp, m));
    }
    CutsClear(sp, body, m, list, pos);
    CutsClear(sp, body, m, list, b);
    out := CopyAround(out, sp, body, m, list, pos, b);
    assert out == out0 + Range(sp, body, m, a, b);
    if b == bodyLen && sp.model.sentinel != "" && !sp.Hit(body, m) { out := out + Spaces(sp.model.Grow()); }
  }
}
