/** The spliced body as a JSON text: its tree, and the keys and values a venue reads off it. */
module SpliceResult {
  import opened Json
  import opened Options
  import opened Automaton
  import opened SafePoints
  import opened ScanGrammar
  import opened ScanRules
  import opened ScanAccepts
  import opened SpanPlaces
  import opened Splicing
  import opened SpliceStream
  import opened SplicePieces
  import opened SpliceMarks
  import opened SpliceTree

  // ---------------------------------------------------------------- which model was sent

  /** The value of the first root member named `model`. */
  function ModelOf(members: seq<Member>): Option<Value>
    decreases |members|
  {
    if members == [] then None
    else if members[0].key == "model" then Some(members[0].value)
    else ModelOf(members[1..])
  }

  predicate SentinelSent(sp: Splice, members: seq<Member>) {
    sp.model.sentinel != "" && ModelOf(members) == Some(Str(sp.model.sentinel))
  }

  /** The marks' model span is this value's text in `body`. */
  predicate SpanIs(body: string, t: Marks, v: Value) {
    && t.modelAt.Some? && t.modelEnd.Some? && t.modelAt.value <= t.modelEnd.value <= |body|
    && body[t.modelAt.value..t.modelEnd.value] == Text(v)
  }

  lemma MemberSlices(body: string, at: nat, m: Member)
    requires Next(at, m) <= |body| && body[at..Next(at, m)] == MemberText(m)
    ensures at <= ValueAt(at, m) <= ValueEnd(at, m) <= Next(at, m)
    ensures body[ValueAt(at, m)..ValueEnd(at, m)] == Text(m.value)
  {
    hide MemberHead, Text;
    NextIs(at, m);
    assert MemberText(m) == MemberHead(m) + (Text(m.value) + m.post);
    Slices(body, at, MemberHead(m), Text(m.value) + m.post);
    Slices(body, ValueAt(at, m), Text(m.value), m.post);
  }

  /** The first member's value is the model's span, when it is the model. */
  lemma ModelFirst(cfg: Config, body: string, marks: Marks, sep: nat, at: nat, members: seq<Member>)
    requires cfg.trackModel && members != [] && members[0].key == "model" && OneModel(marks, members) && sep <= at
    requires Next(at, members[0]) <= |body| && body[at..Next(at, members[0])] == MemberText(members[0])
    ensures SpanIs(body, TellAll(cfg, marks, sep, at, members), members[0].value)
  {
    hide MemberText, MemberHead, Text, ValueAt, ValueEnd;
    var m, next := members[0], Next(at, members[0]);
    MemberSlices(body, at, m);
    OneModelAfter(cfg, marks, sep, at, members);
    TellLater(cfg, Told(cfg, marks, sep, at, m), next, next + 1, members[1..]);
  }

  lemma {:induction false} ModelLater(cfg: Config, body: string, marks: Marks, sep: nat, members: seq<Member>)
    requires cfg.trackModel && OneModel(marks, members) && ModelOf(members).Some?
    requires sep + |Commas(members)| <= |body| && body[sep..sep + |Commas(members)|] == Commas(members)
    ensures SpanIs(body, TellAll(cfg, marks, sep, sep + 1, members), ModelOf(members).value)
    decreases |members|
  {
    hide MemberText, OneModel, Told, SpanIs;
    var m, at, next := members[0], sep + 1, Next(sep + 1, members[0]);
    Slices(body, sep, "," + MemberText(m), Commas(members[1..]));
    Slices(body, sep, ",", MemberText(m));
    if m.key == "model" {
      ModelFirst(cfg, body, marks, sep, at, members);
    } else {
      OneModelAfter(cfg, marks, sep, at, members);
      ModelLater(cfg, body, Told(cfg, marks, sep, at, m), next, members[1..]);
    }
  }

  lemma {:induction false} ModelAbsent(members: seq<Member>)
    ensures ModelOf(members).None? <==> NoModel(members)
    decreases |members|
  {
    if members != [] { ModelAbsent(members[1..]); }
  }

  lemma {:induction false} ModelOk(members: seq<Member>)
    requires AllOk(members)
    ensures ModelOf(members).Some? ==> ValueOk(ModelOf(members).value)
    decreases |members|
  {
    if members != [] {
      assert MemberOk(members[0]);
      ModelOk(members[1..]);
    }
  }

  /** A value's text begins with a quote exactly when it is a string. */
  lemma QuotedIsString(v: Value, s: string)
    requires ValueOk(v)
    ensures Text(v) == "\"" + s + "\"" <==> v == Str(s)
  {
    hide ItemsText, MembersText;
    match v {
      case Str(raw) => if Text(v) == "\"" + s + "\"" { assert raw == Text(v)[1..|Text(v)| - 1] == s; }
      case Lit(_) => assert Text(v)[0] != '"';
      case Num(n) => NumberFirst(n);
      case Arr(_, _) => assert Text(v)[0] != '"';
      case Obj(_, _) => assert Text(v)[0] != '"';
    }
  }

  lemma NumberFirst(n: Number)
    requires NumberOk(n)
    ensures NumberText(n) != "" && NumberText(n)[0] != '"'
  {}

  lemma QuotedSlice(body: string, at: nat, end: nat, s: string)
    requires at <= end <= |body|
    ensures body[at..end] == "\"" + s + "\"" <==>
            end - at == |s| + 2 && body[at] == '"' && body[at + 1..end - 1] == s && body[end - 1] == '"'
  {
    var w, q := body[at..end], "\"" + s + "\"";
    if |w| == |q| {
      assert w[0] == body[at] && w[|s| + 1] == body[end - 1];
      InnerSlice(body, at, end);
      SplitQuoted(w);
      SplitQuoted(q);
      assert q[1..|s| + 1] == s;
    }
  }

  lemma InnerSlice(body: string, at: nat, end: nat)
    requires at + 2 <= end <= |body|
    ensures body[at..end][1..end - at - 1] == body[at + 1..end - 1]
  {
    var w, n := body[at..end], end - at - 1;
    assert |w[1..n]| == |body[at + 1..end - 1]|;
    assert forall k | 0 <= k < n - 1 :: w[1..n][k] == body[at + 1..end - 1][k];
  }

  lemma SplitQuoted(w: string)
    requires |w| >= 2
    ensures w == [w[0]] + w[1..|w| - 1] + [w[|w| - 1]]
  {}

  lemma MatchesText(sp: Splice, body: string, t: Marks, v: Value)
    requires SpanIs(body, t, v)
    ensures sp.model.Matches(body, t.modelAt, t.modelEnd) <==> Text(v) == "\"" + sp.model.sentinel + "\""
  {
    hide Text;
    QuotedSlice(body, t.modelAt.value, t.modelEnd.value, sp.model.sentinel);
  }

  // ---------------------------------------------------------------- an object's text around its members

  /** The marks of the members of an object opened before `open`. */
  function ObjectMarks(cfg: Config, open: nat, members: seq<Member>): Marks {
    TellAll(cfg, Opened(cfg, open), open, open, members)
  }

  lemma {:induction false} OneModelFits(cfg: Config, marks: Marks, members: seq<Member>, k: nat)
    requires k <= |members| && marks.modelEnd.None?
    requires forall j: nat | j < |members| :: MemberFits(cfg, members, j)
    ensures OneModel(marks, members[k..])
    decreases |members| - k
  {
    hide MemberFits, Earlier;
    if k < |members| {
      OneModelFits(cfg, marks, members, k + 1);
      assert members[k..][1..] == members[k + 1..];
      if members[k].key == "model" {
        forall j: nat | k < j < |members| ensures members[j].key != "model" { FitsOnce(cfg, members, k, j); }
      }
    }
  }

  lemma FitsOnce(cfg: Config, members: seq<Member>, k: nat, j: nat)
    requires k < j < |members| && members[k].key == "model" && MemberFits(cfg, members, j)
    ensures members[j].key != "model"
  {
    hide KeyFits, KeysFit;
    assert Earlier(members, j, members[k].key);
  }

  lemma {:induction false} TellEnds(cfg: Config, marks: Marks, sep: nat, members: seq<Member>)
    requires EndsBy(marks, sep)
    ensures EndsBy(TellAll(cfg, marks, sep, sep + 1, members), sep + |Commas(members)|)
    decreases |members|
  {
    hide MemberText, Told, EndsBy;
    if members != [] {
      EndsAfter(cfg, marks, sep, sep + 1, members[0]);
      TellEnds(cfg, Told(cfg, marks, sep, sep + 1, members[0]), Next(sep + 1, members[0]), members[1..]);
    }
  }

  function Inside(v: Value): string
    requires v.Obj?
  {
    if v.members == [] then v.gap else MembersText(v.members)
  }

  /** Every span lies between the braces. */
  lemma SpansInside(cfg: Config, open: nat, v: Value)
    requires v.Obj? && OneModel(Opened(cfg, open), v.members)
    ensures var t := ObjectMarks(cfg, open, v.members);
            && EndsBy(t, open + |Inside(v)|) && (forall k | 0 <= k < |t.found| :: t.found[k].at >= open)
            && (t.modelAt.Some? ==> t.modelAt.value >= open)
            && t.openAt == Opened(cfg, open).openAt
  {
    hide MemberText, Told, OneModel, MembersText;
    var members := v.members;
    TellLater(cfg, Opened(cfg, open), open, open, members);
    if members != [] {
      EndsAfter(cfg, Opened(cfg, open), open, open, members[0]);
      TellEnds(cfg, Told(cfg, Opened(cfg, open), open, open, members[0]), Next(open, members[0]), members[1..]);
      MembersCommas(members);
    }
  }

  /** `body` is the text of an object between `open - 1` and `close`. */
  predicate Braced(body: string, open: nat, v: Value) {
    && v.Obj? && 0 < open && open + |Inside(v)| < |body| && body[open - 1] == '{' && body[open + |Inside(v)|] == '}'
    && body[open..open + |Inside(v)|] == Inside(v)
  }

  lemma DocBraced(d: Doc)
    requires d.value.Obj?
    ensures var body, open := DocText(d), |d.pre| + 1;
            && Braced(body, open, d.value)
            && body[..open] == d.pre + "{" && body[open + |Inside(d.value)|..] == "}" + d.post
  {
    hide MembersText;
    var body, open, close := DocText(d), |d.pre| + 1, |d.pre| + 1 + |Inside(d.value)|;
    BracedText(d.pre, Inside(d.value), d.post);
    assert body == d.pre + ("{" + Inside(d.value) + "}") + d.post;
  }

  lemma BracedText(pre: string, inside: string, post: string)
    ensures var body, open := pre + ("{" + inside + "}") + post, |pre| + 1;
            && |body| == |pre| + |inside| + |post| + 2
            && body[..open] == pre + "{" && body[open..open + |inside|] == inside && body[open + |inside|..] == "}" + post
            && body[open - 1] == '{' && body[open + |inside|] == '}'
  {
    var body, open := pre + ("{" + inside + "}") + post, |pre| + 1;
    assert body == pre + "{" + inside + "}" + post;
    assert body[..open] == pre + "{";
  }

  /** What the bytes outside and between the braces go as. */
  lemma ImageAround(cfg: Config, sp: Splice, body: string, open: nat, v: Value)
    requires Braced(body, open, v) && OneModel(Opened(cfg, open), v.members)
    ensures var t, close := ObjectMarks(cfg, open, v.members), open + |Inside(v)|;
            && Image(sp, body, t, 0, open) == body[..open]
            && Image(sp, body, t, close, |body|) == body[close..]
            && (v.members == [] ==> Image(sp, body, t, open, close) == v.gap)
  {
    hide Image, OneModel, TellAll, MembersText;
    var t, close := ObjectMarks(cfg, open, v.members), open + |Inside(v)|;
    SpansInside(cfg, open, v);
    ImagePlain(sp, body, t, 0, open);
    ImagePlain(sp, body, t, close, |body|);
    assert body[close..|body|] == body[close..];
    if v.members == [] {
      TellNone(cfg, Opened(cfg, open), open, open);
      ImagePlain(sp, body, t, open, close);
    }
  }

  // ---------------------------------------------------------------- the splice decides by the tree

  lemma ModelSpan(cfg: Config, body: string, open: nat, v: Value)
    requires Braced(body, open, v) && OneModel(Opened(cfg, open), v.members) && cfg.trackModel && ModelOf(v.members).Some?
    ensures SpanIs(body, ObjectMarks(cfg, open, v.members), ModelOf(v.members).value)
  {
    hide MemberText, MembersText, OneModel, Told, SpanIs, Opened;
    var ms := v.members;
    var m := ms[0];
    MembersCommas(ms);
    Slices(body, open, MemberText(m), Commas(ms[1..]));
    if m.key == "model" {
      ModelFirst(cfg, body, Opened(cfg, open), open, open, ms);
    } else {
      OneModelAfter(cfg, Opened(cfg, open), open, open, ms);
      ModelLater(cfg, body, Told(cfg, Opened(cfg, open), open, open, m), Next(open, m), ms[1..]);
    }
  }

  /** The model is substituted exactly when the client's model is the sentinel. */
  lemma HitIs(cfg: Config, sp: Splice, body: string, open: nat, v: Value)
    requires v.Obj? && Braced(body, open, v) && OneModel(Opened(cfg, open), v.members) && AllOk(v.members)
    requires sp.model.sentinel != "" ==> cfg.trackModel
    ensures sp.Hit(body, ObjectMarks(cfg, open, v.members)) <==> SentinelSent(sp, v.members)
  {
    hide MemberText, MembersText, OneModel, Text, Braced, ModelOf;
    var t, ms := ObjectMarks(cfg, open, v.members), v.members;
    if sp.model.sentinel == "" { return; }
    if ModelOf(ms).Some? {
      ModelSpan(cfg, body, open, v);
      ModelOk(ms);
      MatchesText(sp, body, t, ModelOf(ms).value);
      QuotedIsString(ModelOf(ms).value, sp.model.sentinel);
    } else {
      ModelAbsent(ms);
      TellLater(cfg, Opened(cfg, open), open, open, ms);
    }
  }

  /** The first member's span comes first, and only its own begins where the object opened. */
  lemma FirstBlankedIs(cfg: Config, sp: Splice, open: nat, members: seq<Member>)
    requires OneModel(Opened(cfg, open), members) && sp.members.Mask() <= cfg.mask && sp.members.Mask() != {}
    ensures FirstBlanked(sp, ObjectMarks(cfg, open, members)) <==> members != [] && Drops(sp, members[0])
  {
    hide MemberText, MemberHead, Text, OneModel;
    var t, m0 := ObjectMarks(cfg, open, members), Opened(cfg, open);
    if members == [] { return; }
    var m, next := members[0], Next(open, members[0]);
    var u := Told(cfg, m0, open, open, m);
    FieldInSmaller(sp, cfg, m.key);
    MemberLong(m);
    OneModelAfter(cfg, m0, open, open, members);
    TellLater(cfg, u, next, next + 1, members[1..]);
    assert t.openAt == Some(open);
    if Drops(sp, m) {
      assert t.found[0] == u.found[0] && t.found[0].at == open;
    } else {
      forall k | 0 <= k < |t.found| && t.found[k].at == open ensures t.found[k].field !in sp.members.Mask() {
        assert k < |u.found| && t.found[k] == u.found[k];
        OwnField(cfg, sp, m, t.found[k].field);
      }
    }
  }

  lemma {:induction false} HasMemberIs(cfg: Config, open: nat, members: seq<Member>)
    requires OneModel(Opened(cfg, open), members)
    ensures cfg.mask != {} && members != [] ==> ObjectMarks(cfg, open, members).hasMember
    ensures members == [] ==> !ObjectMarks(cfg, open, members).hasMember
  {
    hide MemberText, MemberHead, Text, OneModel;
    if members != [] {
      var next := Next(open, members[0]);
      OneModelAfter(cfg, Opened(cfg, open), open, open, members);
      TellLater(cfg, Told(cfg, Opened(cfg, open), open, open, members[0]), next, next + 1, members[1..]);
    }
  }

  // ---------------------------------------------------------------- the object that goes

  /** The members of the object the venue reads. */
  function OutMembers(sp: Splice, hit: bool, v: Value): seq<Member>
    requires v.Obj?
  {
    var policy, ms := sp.members.Members(), v.members;
    if policy == [] then (if ms == [] then [] else Weave(sp, hit, [Kept(sp, hit, ms[0])], ms[1..]))
    else if ms == [] then Padded(policy, " " + v.gap)
    else Weave(sp, hit, policy, ms)
  }

  /** The insertion and the members, together. */
  function Between(sp: Splice, hit: bool, v: Value): string
    requires v.Obj?
  {
    var policy, ms := sp.members.Members(), v.members;
    (if policy == [] then "" else MembersText(policy) + if ms == [] || Drops(sp, ms[0]) then " " else ",") +
    (if ms == [] then v.gap else PieceText(sp, hit, "", ms[0]) + Pieces(sp, hit, ms[1..]))
  }

  /** A first piece, with what goes before it, is a piece after a comma. */
  lemma FirstPiece(sp: Splice, hit: bool, m: Member)
    ensures (if Drops(sp, m) then " " else ",") + PieceText(sp, hit, "", m) == PieceText(sp, hit, ",", m)
  {
    hide MemberHead, Text, Drops;
    var n := |MemberHead(m)| + |Text(m.value)|;
    if Drops(sp, m) {
      assert " " + Spaces(n) == Spaces(1 + n);
      assert " " + (Spaces(n) + m.post) == " " + Spaces(n) + m.post;
    } else if Substitutes(sp, hit, m) {
      FirstJoin(MemberHead(m), sp.model.Value(), m.post);
    }
  }

  lemma FirstJoin(head: string, value: string, post: string)
    ensures "," + ("" + head + value + post) == "," + head + value + post
  {}

  lemma FirstKept(sp: Splice, hit: bool, m: Member)
    requires !Drops(sp, m)
    ensures MembersText([Kept(sp, hit, m)]) == PieceText(sp, hit, "", m)
  {
    hide MemberHead, Text, Drops, PieceText, Kept;
    FirstPiece(sp, hit, m);
    KeptText(sp, hit, m);
    var a, b := MemberText(Kept(sp, hit, m)), PieceText(sp, hit, "", m);
    assert ("," + a)[1..] == a && ("," + b)[1..] == b;
  }

  lemma NoDrops(sp: Splice, m: Member)
    requires sp.members.Members() == []
    ensures !Drops(sp, m)
  {}

  lemma WovenFirst(sp: Splice, hit: bool, ms: seq<Member>)
    requires sp.members.Members() == [] && ms != []
    ensures MembersText(Weave(sp, hit, [Kept(sp, hit, ms[0])], ms[1..]))
            == PieceText(sp, hit, "", ms[0]) + Pieces(sp, hit, ms[1..])
  {
    hide MembersText, PieceText, Kept, Drops, Pieces, Weave;
    NoDrops(sp, ms[0]);
    FirstKept(sp, hit, ms[0]);
    WeaveText(sp, hit, [Kept(sp, hit, ms[0])], ms[1..]);
  }

  lemma WovenAfter(sp: Splice, hit: bool, policy: seq<Member>, ms: seq<Member>)
    requires policy != [] && ms != []
    ensures MembersText(Weave(sp, hit, policy, ms))
            == MembersText(policy) + (if Drops(sp, ms[0]) then " " else ",") +
               (PieceText(sp, hit, "", ms[0]) + Pieces(sp, hit, ms[1..]))
  {
    hide MembersText, PieceText, Drops, Pieces, Weave;
    FirstPiece(sp, hit, ms[0]);
    WeaveText(sp, hit, policy, ms);
    PiecesFirst(sp, hit, ms);
    BetweenJoin(MembersText(policy), if Drops(sp, ms[0]) then " " else ",",
                PieceText(sp, hit, "", ms[0]), Pieces(sp, hit, ms[1..]));
  }

  lemma BetweenText(sp: Splice, hit: bool, v: Value)
    requires v.Obj?
    ensures Between(sp, hit, v) == if OutMembers(sp, hit, v) == [] then v.gap else MembersText(OutMembers(sp, hit, v))
  {
    hide MembersText, PieceText, Kept, Padded, Drops, Pieces, Weave;
    var policy, ms := sp.members.Members(), v.members;
    if policy == [] {
      if ms != [] { WovenFirst(sp, hit, ms); }
    } else if ms == [] {
      PaddedText(policy, " " + v.gap);
      assert MembersText(policy) + (" " + v.gap) == MembersText(policy) + " " + v.gap;
    } else {
      WovenAfter(sp, hit, policy, ms);
    }
  }

  lemma PiecesFirst(sp: Splice, hit: bool, ms: seq<Member>)
    requires ms != []
    ensures Pieces(sp, hit, ms) == PieceText(sp, hit, ",", ms[0]) + Pieces(sp, hit, ms[1..])
  {}

  lemma BetweenJoin(a: string, b: string, c: string, d: string)
    ensures a + b + (c + d) == a + ((b + c) + d)
  {}

  /** The tree of the body the venue gets. */
  function SplicedDoc(sp: Splice, d: Doc): Doc
    requires d.value.Obj?
  {
    var hit := SentinelSent(sp, d.value.members);
    var trailer := if sp.model.sentinel != "" && !hit then Spaces(sp.model.Grow()) else "";
    Doc(d.pre, Braces(d.value.gap, OutMembers(sp, hit, d.value)), d.post + trailer)
  }

  // ---------------------------------------------------------------- the whole splice is that object's text

  lemma {:induction false} ImageHold(sp: Splice, body: string, a: Marks, b: Marks, i: nat, j: nat)
    requires Spans(a) == Spans(b) && i <= j <= |body|
    ensures Image(sp, body, a, i, j) == Image(sp, body, b, i, j)
    decreases j
  {
    hide Byte;
    if i < j {
      ImageHold(sp, body, a, b, i, j - 1);
      ByteHold(sp, body, a, b, j - 1);
    }
  }

  lemma ByteHold(sp: Splice, body: string, a: Marks, b: Marks, i: nat)
    requires Spans(a) == Spans(b) && i < |body|
    ensures Byte(sp, body, a, i) == Byte(sp, body, b, i)
  {
    assert Blanked(sp, a, i) == Blanked(sp, b, i);
  }

  lemma RangeHold(sp: Splice, body: string, a: Marks, b: Marks, i: nat, j: nat)
    requires Spans(a) == Spans(b) && i <= j <= |body|
    ensures Range(sp, body, a, i, j) == Range(sp, body, b, i, j)
  {
    hide Image, MembersText;
    ImageHold(sp, body, a, b, i, j);
    assert FirstBlanked(sp, a) == FirstBlanked(sp, b);
    if Inserts(sp, a, i, j) {
      ImageHold(sp, body, a, b, i, a.openAt.value);
      ImageHold(sp, body, a, b, a.openAt.value, j);
    }
  }

  lemma InsertionIs(cfg: Config, sp: Splice, open: nat, members: seq<Member>)
    requires OneModel(Opened(cfg, open), members) && sp.members.Mask() <= cfg.mask && sp.members.Members() != []
    ensures Insertion(sp, ObjectMarks(cfg, open, members))
            == MembersText(sp.members.Members()) + if members == [] || Drops(sp, members[0]) then " " else ","
  {
    hide MembersText, OneModel, Opened, FirstBlanked, Drops, ObjectMarks;
    FirstBlankedIs(cfg, sp, open, members);
    HasMemberIs(cfg, open, members);
  }

  /** What the bytes between the braces go as. */
  lemma ImageInside(cfg: Config, sp: Splice, body: string, open: nat, v: Value)
    requires Braced(body, open, v) && OneModel(Opened(cfg, open), v.members) && AllOk(v.members) && Suits(cfg, sp)
    ensures var hit := SentinelSent(sp, v.members);
            Image(sp, body, ObjectMarks(cfg, open, v.members), open, open + |Inside(v)|)
            == if v.members == [] then v.gap else PieceText(sp, hit, "", v.members[0]) + Pieces(sp, hit, v.members[1..])
  {
    hide Image, MembersText, OneModel, PieceText, Pieces, TellAll, SentinelSent;
    HitIs(cfg, sp, body, open, v);
    if v.members == [] {
      ImageAround(cfg, sp, body, open, v);
    } else {
      ImageMembers(cfg, sp, body, Opened(cfg, open), ObjectMarks(cfg, open, v.members), open, v.members);
    }
  }

  lemma ImageParts(cfg: Config, sp: Splice, body: string, open: nat, v: Value)
    requires Braced(body, open, v) && OneModel(Opened(cfg, open), v.members) && AllOk(v.members) && Suits(cfg, sp)
    ensures var t, close := ObjectMarks(cfg, open, v.members), open + |Inside(v)|;
            Image(sp, body, t, open, |body|) == Image(sp, body, t, open, close) + body[close..]
  {
    hide Image, MembersText, OneModel, ObjectMarks;
    var t, close := ObjectMarks(cfg, open, v.members), open + |Inside(v)|;
    ImageAround(cfg, sp, body, open, v);
    ImageSplit(sp, body, t, open, close, |body|);
  }

  lemma RangeIs(cfg: Config, sp: Splice, body: string, open: nat, v: Value)
    requires Braced(body, open, v) && OneModel(Opened(cfg, open), v.members) && AllOk(v.members) && Suits(cfg, sp)
    ensures var close := open + |Inside(v)|;
            Range(sp, body, ObjectMarks(cfg, open, v.members), 0, |body|)
            == body[..open] + Between(sp, SentinelSent(sp, v.members), v) + body[close..]
  {
    hide Image, MembersText, OneModel, PieceText, Pieces, ObjectMarks, SentinelSent, Between, Suits, Opened, AllOk;
    var t, close, hit := ObjectMarks(cfg, open, v.members), open + |Inside(v)|, SentinelSent(sp, v.members);
    ImageAround(cfg, sp, body, open, v);
    ImageParts(cfg, sp, body, open, v);
    var inside := Image(sp, body, t, open, close);
    BetweenIs(cfg, sp, body, open, v);
    if sp.members.Members() == [] {
      ImageSplit(sp, body, t, 0, open, |body|);
      PlainJoin(body[..open], inside, body[close..]);
    } else {
      InsertsAt(cfg, sp, body, open, v);
      RangeJoin(body[..open], Insertion(sp, t), inside, body[close..]);
    }
  }

  lemma PlainJoin(a: string, b: string, c: string)
    ensures a + (b + c) == a + ("" + b) + c
  {}

  lemma InsertsAt(cfg: Config, sp: Splice, body: string, open: nat, v: Value)
    requires Braced(body, open, v) && OneModel(Opened(cfg, open), v.members) && Suits(cfg, sp)
    requires sp.members.Members() != []
    ensures var t := ObjectMarks(cfg, open, v.members); Inserts(sp, t, 0, |body|) && t.openAt == Some(open)
  {
    hide OneModel, ObjectMarks, EndsBy, MembersText;
    SpansInside(cfg, open, v);
  }

  lemma BetweenIs(cfg: Config, sp: Splice, body: string, open: nat, v: Value)
    requires v.Obj? && Braced(body, open, v) && OneModel(Opened(cfg, open), v.members) && AllOk(v.members) && Suits(cfg, sp)
    ensures var t, close := ObjectMarks(cfg, open, v.members), open + |Inside(v)|;
            Between(sp, SentinelSent(sp, v.members), v)
            == (if sp.members.Members() == [] then "" else Insertion(sp, t)) + Image(sp, body, t, open, close)
  {
    hide Image, MembersText, OneModel, PieceText, Pieces, ObjectMarks, SentinelSent, Insertion, Drops, Inside, Braced;
    ImageInside(cfg, sp, body, open, v);
    if sp.members.Members() != [] { InsertionIs(cfg, sp, open, v.members); }
  }

  lemma RangeJoin(a: string, b: string, c: string, d: string)
    ensures a + b + (c + d) == a + (b + c) + d
  {}

  lemma DoneFits(cfg: Config, d: Doc)
    requires DocOk(d) && Done(Verdict(cfg, DocText(d)))
    ensures Fits(cfg, d.value)
  {
    hide Absorb, Fits, Verdict, At;
    EndsAtTree(cfg, d);
    RootFits(cfg, |d.pre|, d.value);
  }

  lemma ObjectFacts(cfg: Config, d: Doc)
    requires DocOk(d) && d.value.Obj? && Done(Verdict(cfg, DocText(d)))
    ensures OneModel(Opened(cfg, |d.pre| + 1), d.value.members) && AllOk(d.value.members)
  {
    hide OneModel, Verdict, DocText;
    DoneFits(cfg, d);
    assert d.value.members[0..] == d.value.members;
    OneModelFits(cfg, Opened(cfg, |d.pre| + 1), d.value.members, 0);
  }

  /** What the venue gets for an object is the text of the spliced tree. */
  lemma WholeText(cfg: Config, sp: Splice, d: Doc)
    requires DocOk(d) && d.value.Obj? && Done(Verdict(cfg, DocText(d))) && Suits(cfg, sp)
    ensures Whole(cfg, sp, DocText(d)) == DocText(SplicedDoc(sp, d))
  {
    hide At, MembersText, OneModel, Range, SentinelSent, Verdict, Between, Inside, OutMembers, DocText, DocOk, Suits, TellAll;
    var body, open, v := DocText(d), |d.pre| + 1, d.value;
    var m, t := At(cfg, body, |body|).core.marks, ObjectMarks(cfg, open, v.members);
    var hit := SentinelSent(sp, v.members);
    ObjectFacts(cfg, d);
    ScanSpans(cfg, d);
    DocBraced(d);
    RangeHold(sp, body, m, t, 0, |body|);
    RangeIs(cfg, sp, body, open, v);
    assert Suits(cfg, sp) ==> sp.model.sentinel != "" ==> cfg.trackModel by { SuitsModel(cfg, sp); }
    HitIs(cfg, sp, body, open, v);
    assert sp.Hit(body, m) == sp.Hit(body, t);
    BetweenText(sp, hit, v);
    WholeJoin(sp, d, Between(sp, hit, v), Trailer(sp, body, m));
  }

  lemma SuitsModel(cfg: Config, sp: Splice)
    requires Suits(cfg, sp)
    ensures sp.model.sentinel != "" ==> cfg.trackModel
  {}

  lemma WholeJoin(sp: Splice, d: Doc, inside: string, trailer: string)
    requires d.value.Obj?
    requires var hit := SentinelSent(sp, d.value.members);
             && inside == (if OutMembers(sp, hit, d.value) == [] then d.value.gap else MembersText(OutMembers(sp, hit, d.value)))
             && trailer == if sp.model.sentinel != "" && !hit then Spaces(sp.model.Grow()) else ""
    ensures d.pre + "{" + inside + ("}" + d.post) + trailer == DocText(SplicedDoc(sp, d))
  {
    hide MembersText, OutMembers, SentinelSent;
  }

  lemma OutOk(sp: Splice, hit: bool, v: Value)
    requires v.Obj? && ValueOk(v) && SpliceOk(sp)
    ensures ValueOk(Braces(v.gap, OutMembers(sp, hit, v)))
  {
    hide MemberOk, Weave, SpliceOk, Kept;
    var policy, ms := sp.members.Members(), v.members;
    assert AllOk(ms);
    PolicyOk(sp);
    if policy == [] {
      if ms != [] {
        KeptOk(sp, hit, ms[0]);
        WeaveOk(sp, hit, [Kept(sp, hit, ms[0])], ms[1..]);
      }
    } else if ms == [] {
      PaddedOk(policy, " " + v.gap);
    } else {
      WeaveOk(sp, hit, policy, ms);
    }
  }

  lemma PaddedOk(members: seq<Member>, blank: string)
    requires members != [] && AllOk(members) && Blank(blank)
    ensures AllOk(Padded(members, blank))
  {
    hide ValueOk, StringBody;
    assert MemberOk(members[|members| - 1]);
  }

  lemma OutPairs(sp: Splice, hit: bool, v: Value)
    requires v.Obj?
    ensures Pairs(OutMembers(sp, hit, v)) == Pairs(sp.members.Members()) + KeptPairs(sp, hit, v.members)
  {
    hide Pairs, Kept, Drops, Weave, Padded;
    var policy, ms := sp.members.Members(), v.members;
    assert Pairs([]) == [];
    if policy == [] {
      if ms != [] {
        NoDrops(sp, ms[0]);
        WeavePairs(sp, hit, [Kept(sp, hit, ms[0])], ms[1..]);
      }
    } else if ms == [] {
      PaddedPairs(policy, " " + v.gap);
    } else {
      WeavePairs(sp, hit, policy, ms);
    }
  }

  lemma PaddedPairs(members: seq<Member>, blank: string)
    requires members != []
    ensures Pairs(Padded(members, blank)) == Pairs(members)
  {}

  // ---------------------------------------------------------------- the members by name

  /** The pair of a member set; none for an empty value. */
  function Given(key: string, value: string): seq<(string, Value)> { if value == "" then [] else [(key, Str(value))] }

  /** What the policy sets. */
  function Policy(ms: MemberSplice): seq<(string, Value)> {
    Given("service_tier", ms.serviceTier) + Given("speed", ms.speed) + Given("inference_geo", ms.inferenceGeo)
  }

  /** A member of the client's that gives way to the policy's. */
  predicate GivesWay(ms: MemberSplice, key: string) {
    || (key == "service_tier" && ms.serviceTier != "")
    || (key == "speed" && ms.speed != "")
    || (key == "inference_geo" && ms.inferenceGeo != "")
  }

  /** The client's other members, in order, its model the replacement if it sent the sentinel. */
  function Clients(sp: Splice, hit: bool, members: seq<Member>): seq<(string, Value)>
    decreases |members|
  {
    if members == [] then []
    else
      var m, rest := members[0], Clients(sp, hit, members[1..]);
      if GivesWay(sp.members, m.key) then rest
      else [(m.key, if hit && m.key == "model" then Str(sp.model.replacement) else m.value)] + rest
  }

  lemma PolicyIs(ms: MemberSplice)
    ensures Pairs(ms.Members()) == Policy(ms)
  {
    hide Pairs;
    GivenIs(ms, ServiceTier);
    GivenIs(ms, Speed);
    GivenIs(ms, InferenceGeo);
    PairsSum(ms.MemberOf(ServiceTier), ms.MemberOf(Speed));
    PairsSum(ms.MemberOf(ServiceTier) + ms.MemberOf(Speed), ms.MemberOf(InferenceGeo));
  }

  lemma GivenIs(ms: MemberSplice, f: Field)
    ensures Pairs(ms.MemberOf(f)) == Given(FieldKey(f), ms.Of(f))
  {
    hide FieldKey;
    if ms.Of(f) == "" {
      assert Pairs([]) == [];
    } else {
      assert Pairs(ms.MemberOf(f)) == [(FieldKey(f), Str(ms.Of(f)))];
    }
  }

  lemma {:induction false} ClientsAre(sp: Splice, hit: bool, members: seq<Member>)
    ensures KeptPairs(sp, hit, members) == Clients(sp, hit, members)
    decreases |members|
  {
    if members != [] {
      var m := members[0];
      ClientsAre(sp, hit, members[1..]);
      GivesWayIs(sp, m.key);
      if !Drops(sp, m) { assert Pairs([Kept(sp, hit, m)]) == [(Kept(sp, hit, m).key, Kept(sp, hit, m).value)]; }
    }
  }

  lemma GivesWayIs(sp: Splice, key: string)
    ensures FieldIn(sp.members.Mask(), key).Some? <==> GivesWay(sp.members, key)
  {}

  /** For every object the scan takes, what the venue reads is an object: the policy's members,
      then the client's that stay, in order, with only a sentinel model replaced. */
  lemma VenueReads(cfg: Config, sp: Splice, d: Doc)
    requires DocOk(d) && d.value.Obj? && Done(Verdict(cfg, DocText(d))) && Suits(cfg, sp) && SpliceOk(sp)
    ensures var e := SplicedDoc(sp, d);
            && Whole(cfg, sp, DocText(d)) == DocText(e) && DocOk(e) && e.value.Obj?
            && Pairs(e.value.members)
               == Policy(sp.members) + Clients(sp, SentinelSent(sp, d.value.members), d.value.members)
  {
    hide Verdict, OutMembers, SentinelSent, Pairs, KeptPairs, Whole, DocText, Suits, SpliceOk, ValueOk, Policy, Clients;
    var hit := SentinelSent(sp, d.value.members);
    WholeText(cfg, sp, d);
    OutOk(sp, hit, d.value);
    OutPairs(sp, hit, d.value);
    PolicyIs(sp.members);
    ClientsAre(sp, hit, d.value.members);
  }

  /** No pair with this key. */
  predicate Nowhere(pairs: seq<(string, Value)>, key: string) { forall k | 0 <= k < |pairs| :: pairs[k].0 != key }

  /** A member the policy leaves alone and the client did not send is not there. */
  lemma {:induction false} NotSent(sp: Splice, hit: bool, members: seq<Member>, key: string)
    requires !(exists k | 0 <= k < |members| :: members[k].key == key)
    ensures Nowhere(Clients(sp, hit, members), key)
    decreases |members|
  {
    if members != [] {
      assert members[0].key != key;
      assert forall k | 0 <= k < |members[1..]| :: members[1..][k] == members[k + 1];
      NotSent(sp, hit, members[1..], key);
    }
  }

  /** Each of the three by name: set, the venue reads the policy's value and no other; left alone and
      not sent, it reads none. */
  lemma FieldsRead(sp: Splice, hit: bool, members: seq<Member>, key: string, value: string)
    requires || (key == "service_tier" && value == sp.members.serviceTier)
             || (key == "speed" && value == sp.members.speed)
             || (key == "inference_geo" && value == sp.members.inferenceGeo)
    ensures var pairs := Policy(sp.members) + Clients(sp, hit, members);
            && (value != "" ==> (key, Str(value)) in pairs && forall p <- pairs :: p.0 == key ==> p.1 == Str(value))
            && (value == "" && !(exists k | 0 <= k < |members| :: members[k].key == key) ==> Nowhere(pairs, key))
  {
    FieldNamesApart();
    if value != "" { GoneAway(sp, hit, members, key); } else if !(exists k | 0 <= k < |members| :: members[k].key == key) {
      NotSent(sp, hit, members, key);
    }
  }

  lemma FieldNamesApart()
    ensures "service_tier" != "speed" && "service_tier" != "inference_geo" && "speed" != "inference_geo"
  {
    assert "service_tier"[0] == 's' && "speed"[0] == 's' && "inference_geo"[0] == 'i' && "service_tier"[1] == 'e' && "speed"[1] == 'p';
  }

  lemma {:induction false} GoneAway(sp: Splice, hit: bool, members: seq<Member>, key: string)
    requires GivesWay(sp.members, key)
    ensures Nowhere(Clients(sp, hit, members), key)
    decreases |members|
  {
    hide GivesWay;
    if members != [] { GoneAway(sp, hit, members[1..], key); }
  }

  /** Any other JSON text goes as it is, but for spaces after it. */
  lemma VenueReadsOther(cfg: Config, sp: Splice, d: Doc)
    requires DocOk(d) && !d.value.Obj? && Done(Verdict(cfg, DocText(d))) && Suits(cfg, sp)
    ensures Whole(cfg, sp, DocText(d)) == DocText(d.(post := d.post + Spaces(sp.model.Grow())))
  {
    hide At, Verdict, Image, Text;
    var body := DocText(d);
    NoSpans(cfg, d);
    var m := At(cfg, body, |body|).core.marks;
    assert !sp.Hit(body, m);
    assert Spans(m) == START.marks;
    ImagePlain(sp, body, m, 0, |body|);
    assert body[0..|body|] == body;
  }
}
