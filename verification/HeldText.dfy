/** `apply_overrides` writes the text of the tree it means to, and refuses exactly what that tree
    cannot take; on every body the scan takes, a venue reads the same keys and values off it as
    off the stream.
 */
module HeldText {
  import opened Json
  import opened Options
  import opened Splicing
  import opened SplicePieces
  import opened SpliceTree
  import opened SpliceAppend
  import opened SpliceResult
  import opened HeldRewrite
  import opened JsonParser
  import JsonKeys
  import opened Sorting

  // ---------------------------------------------------------------- the text

  lemma {:induction false} AtEnd(open: nat, members: seq<Member>, k: nat)
    requires k < |members|
    ensures MemberAt(open, members, k) + |MemberText(members[k])| + |Commas(members[k + 1..])| + 1
            == MemberAt(open, members, |members|)
    decreases |members| - k
  {
    hide MemberText;
    AtNext(open, members, k);
    if k + 1 < |members| {
      AtEnd(open, members, k + 1);
      CommasFirst(members, k + 1);
    }
  }

  lemma SetAllFirst(o: Overrides, members: seq<Member>)
    requires members != []
    ensures SetAll(o, members)[0] == SetMember(o, members[0])
  {}

  /** The edits of an object with members, applied from its `{` on. */
  lemma AppliedObject(o: Overrides, body: string, open: nat, v: Value)
    requires v.Obj? && Braced(body, open, v) && Settable(o, v.members) && v.members != []
    ensures Applied(body, open, EditsFrom(o, open, v.members, 0))
            == MembersText(SetAll(o, v.members)) + body[open + |Inside(v)|..]
  {
    hide MembersText, MemberText, Applied, EditsFrom, SetAll, Settable, Commas, SetMember, Next, MemberAt, Braced, Inside;
    var ms, close := v.members, open + |Inside(v)|;
    var first := SetMember(o, ms[0]);
    ObjectSlices(body, open, v);
    ObjectAt(open, v);
    NoPrefix(MemberText(ms[0]));
    AppliedMember(o, body, open, ms, 0, open, "");
    AppliedRest(o, body, open, ms, 1, close);
    SetAllFirst(o, ms);
    MembersCommas(SetAll(o, ms));
    NoPrefix(MemberText(first));
    RestJoin(MemberText(first), Commas(SetAll(o, ms)[1..]), body[close..]);
  }

  lemma NoPrefix(s: string)
    ensures "" + s == s
  {}

  lemma ObjectSlices(body: string, open: nat, v: Value)
    requires Braced(body, open, v) && v.members != []
    ensures var n := |MemberText(v.members[0])|;
            && |Inside(v)| == n + |Commas(v.members[1..])| && open + |Inside(v)| < |body|
            && body[open..open + n] == MemberText(v.members[0])
            && body[open + n..open + |Inside(v)|] == Commas(v.members[1..])
  {
    hide MembersText, MemberText, Commas;
    MembersCommas(v.members);
    Slices(body, open, MemberText(v.members[0]), Commas(v.members[1..]));
  }

  lemma ObjectAt(open: nat, v: Value)
    requires v.Obj? && v.members != []
    ensures var ms := v.members;
            && MemberAt(open, ms, 0) == open && Next(open, ms[0]) == open + |MemberText(ms[0])|
            && MemberAt(open, ms, 1) == open + |MemberText(ms[0])| + 1
            && MemberAt(open, ms, |ms|) == open + |Inside(v)| + 1
  {
    hide MembersText, Commas, MemberText;
    AtEnd(open, v.members, 0);
    AtNext(open, v.members, 0);
    MembersCommas(v.members);
  }

  lemma AtLast(body: string, open: nat, v: Value)
    requires Braced(body, open, v)
    ensures v.members == [] || MemberAt(open, v.members, |v.members|) == open + |Inside(v)| + 1
    ensures MemberAt(open, v.members, |v.members|) <= |body|
  {
    hide MembersText, Commas, MemberText;
    if v.members != [] {
      AtEnd(open, v.members, 0);
      MembersCommas(v.members);
    }
  }

  /** What is copied after the insertion, or from the start without one. */
  function HeldInside(o: Overrides, v: Value): string
    requires v.Obj?
  {
    if v.members == [] then v.gap else MembersText(SetAll(o, v.members))
  }

  lemma AppliedInside(o: Overrides, body: string, open: nat, v: Value)
    requires Braced(body, open, v) && Settable(o, v.members)
    ensures Applied(body, open, EditsFrom(o, open, v.members, 0)) == HeldInside(o, v) + body[open + |Inside(v)|..]
    ensures Applied(body, 0, EditsFrom(o, open, v.members, 0)) == body[..open] + (HeldInside(o, v) + body[open + |Inside(v)|..])
  {
    hide MembersText, Applied, EditsFrom, SetAll, Settable;
    var ms, close, es := v.members, open + |Inside(v)|, EditsFrom(o, open, v.members, 0);
    AtLast(body, open, v);
    RestPast(o, open, ms, 0, |body|);
    if ms == [] {
      assert es == [] by { NoEdits(o, open); }
      AppliedNone(body, open);
      SliceJoin(body, open, close, |body|);
      assert body[close..|body|] == body[close..];
    } else {
      AppliedObject(o, body, open, v);
    }
    AppliedSkip(body, 0, open, es);
    assert body[0..open] == body[..open];
  }

  lemma NoEdits(o: Overrides, open: nat)
    ensures EditsFrom(o, open, [], 0) == []
  {}

  lemma {:induction false} MembersTextSum(a: seq<Member>, b: seq<Member>)
    requires a != [] && b != []
    ensures MembersText(a + b) == MembersText(a) + "," + MembersText(b)
    decreases |a|
  {
    hide MemberText;
    assert (a + b)[1..] == a[1..] + b;
    if |a| > 1 {
      MembersTextSum(a[1..], b);
      SumJoin(MemberText(a[0]), MembersText(a[1..]), MembersText(b));
    } else {
      assert a[1..] + b == b;
    }
  }

  lemma SumJoin(a: string, b: string, c: string)
    ensures a + "," + (b + "," + c) == a + "," + b + "," + c
  {}

  /** The insertion with its comma, then the rest, is the text of the members written. */
  lemma InsideText(o: Overrides, v: Value)
    requires v.Obj?
    ensures var ins := Absent(o, v.members);
            Listing(ins) + (if ins != [] && v.members != [] then "," else "") + HeldInside(o, v)
            == if HeldMembers(o, v) == [] then v.gap else MembersText(HeldMembers(o, v))
  {
    hide MembersText, Absent, SetAll, Padded;
    var ins := Absent(o, v.members);
    if ins != [] {
      if v.members == [] { PaddedText(ins, v.gap); } else { MembersTextSum(ins, SetAll(o, v.members)); }
    }
  }

  lemma HeldJoin(o: Overrides, d: Doc, pre: string, ins: string, inside: string, post: string)
    requires d.value.Obj? && pre == d.pre + "{" && post == "}" + d.post
    requires ins + inside == if HeldMembers(o, d.value) == [] then d.value.gap else MembersText(HeldMembers(o, d.value))
    ensures pre + ins + (inside + post) == DocText(HeldDoc(o, d))
  {
    hide MembersText, HeldMembers;
    var all := ins + inside;
    assert pre + ins + (inside + post) == d.pre + ("{" + all + "}") + d.post;
  }

  // ---------------------------------------------------------------- the rewrite

  /** An object is empty exactly when its `}` is the first byte after the blank. */
  lemma EmptyObject(body: string, open: nat, v: Value, j: nat)
    requires Braced(body, open, v) && ValueOk(v)
    requires open <= j <= |body| && Blank(body[open..j]) && (j < |body| ==> !Ws(body[j]))
    ensures j < |body| && (body[j] == '}' <==> v.members == [])
  {
    hide MembersText, MemberText;
    if v.members == [] {
      BlankEnds(body, open, j, v.gap, '}');
    } else {
      var m := v.members[0];
      assert MemberOk(m);
      FirstBytes(v.members);
      var text := MembersText(v.members);
      var q := open + |m.pre|;
      assert body[q] == body[open..open + |text|][|m.pre|] == '"';
      assert body[open..q] == body[open..open + |text|][..|m.pre|];
      BlankEnds(body, open, j, m.pre, '"');
    }
  }

  lemma FirstBytes(members: seq<Member>)
    requires members != []
    ensures var text, m := MembersText(members), members[0];
            |m.pre| < |text| && text[..|m.pre|] == m.pre && text[|m.pre|] == '"'
  {
    hide Text, Commas;
    MembersCommas(members);
    var m := members[0];
    var rest := m.key + "\"" + m.beforeColon + ":" + m.afterColon;
    assert MemberHead(m) == m.pre + ("\"" + rest);
  }

  lemma GatheredEnds(o: Overrides, open: nat, members: seq<Member>, es: seq<Edit>, ins: string)
    requires Gathered(o, open, members, 4, es, ins)
    ensures Covers(o, open, members, FirstKeys(4), es) && ins == Listing(Absent(o, members)) && Distinct(es, EditAt)
  {}

  /** The edits sorted and applied, after the insertion. */
  method Rewrite(body: string, d: Doc, o: Overrides, es: array<Edit>, n: nat, ins: string) returns (out: string)
    requires DocOk(d) && d.value.Obj? && DocText(d) == body && Settable(o, d.value.members) && n <= es.Length
    requires Gathered(o, |d.pre| + 1, d.value.members, 4, es[..n], ins)
    modifies es
    ensures out == DocText(HeldDoc(o, d))
  {
    hide Applied, DocText, Absent, Settable, EditsFrom, MembersText, Gathered, Covers, Listing, DocOk, HeldDoc;
    var open, ms := |d.pre| + 1, d.value.members;
    GatheredEnds(o, open, ms, es[..n], ins);
    ghost var was := es[..n];
    SortByOffset(es, n, EditAt);
    CoveredSorted(o, open, ms, was, es[..n]);
    TextBraced(o, body, d);
    if ins == "" {
      out := CopyEdits("", body, 0, es[..n]);
      WrittenPlain(o, body, d);
      NoPrefix(out);
    } else {
      var probe := SkipBlank(body, open);
      ProbeTells(body, d, probe);
      var sep := if probe >= |body| || body[probe] != '}' then "," else "";
      out := CopyEdits(body[..open] + (ins + sep), body, open, es[..n]);
      WrittenInserted(o, body, d, ins, sep);
    }
  }

  lemma TextBraced(o: Overrides, body: string, d: Doc)
    requires d.value.Obj? && DocText(d) == body
    ensures var es, open := EditsFrom(o, |d.pre| + 1, d.value.members, 0), |d.pre| + 1;
            Fitting(|body|, 0, es) && Fitting(|body|, open, es) && open <= |body|
  {
    hide EditsFrom, Inside, Fitting, Braced, DocText;
    DocBraced(d);
    BracedFits(o, body, |d.pre| + 1, d.value);
  }

  lemma ProbeTells(body: string, d: Doc, probe: nat)
    requires DocOk(d) && d.value.Obj? && DocText(d) == body && |d.pre| + 1 <= probe <= |body|
    requires Blank(body[|d.pre| + 1..probe]) && (probe < |body| ==> !Ws(body[probe]))
    ensures probe < |body| && (body[probe] == '}' <==> d.value.members == [])
  {
    hide Inside, Braced, DocText;
    DocBraced(d);
    EmptyObject(body, |d.pre| + 1, d.value, probe);
  }

  /** Edits alone write the tree, when nothing is inserted. */
  lemma WrittenPlain(o: Overrides, body: string, d: Doc)
    requires d.value.Obj? && DocText(d) == body && Settable(o, d.value.members)
    requires Listing(Absent(o, d.value.members)) == ""
    ensures Applied(body, 0, EditsFrom(o, |d.pre| + 1, d.value.members, 0)) == DocText(HeldDoc(o, d))
  {
    hide Applied, DocText, Absent, Settable, EditsFrom, MembersText, Inside, HeldInside, Listing, Braced, HeldMembers, HeldDoc;
    var open, close, inside := |d.pre| + 1, |d.pre| + 1 + |Inside(d.value)|, HeldInside(o, d.value);
    ListingEmpty(Absent(o, d.value.members));
    InsideText(o, d.value);
    DocBraced(d);
    OpenInside(body, open, d.value);
    AppliedInside(o, body, open, d.value);
    HeldJoin(o, d, body[..open], "", inside, body[close..]);
    PlainTail(body[..open], inside + body[close..]);
  }

  lemma PlainTail(a: string, b: string)
    ensures a + "" + b == a + b
  {}

  /** The insertion and the edits write the tree. */
  lemma WrittenInserted(o: Overrides, body: string, d: Doc, ins: string, sep: string)
    requires d.value.Obj? && DocText(d) == body && Settable(o, d.value.members)
    requires ins == Listing(Absent(o, d.value.members)) && ins != "" && sep == if d.value.members == [] then "" else ","
    ensures |d.pre| + 1 <= |body|
    ensures body[..|d.pre| + 1] + (ins + sep) + Applied(body, |d.pre| + 1, EditsFrom(o, |d.pre| + 1, d.value.members, 0))
            == DocText(HeldDoc(o, d))
  {
    hide Applied, DocText, Absent, Settable, EditsFrom, MembersText, Inside, HeldInside, Listing, Braced, HeldMembers, HeldDoc;
    var open, close, inside := |d.pre| + 1, |d.pre| + 1 + |Inside(d.value)|, HeldInside(o, d.value);
    ListingEmpty(Absent(o, d.value.members));
    InsideText(o, d.value);
    DocBraced(d);
    OpenInside(body, open, d.value);
    AppliedInside(o, body, open, d.value);
    HeldJoin(o, d, body[..open], ins + sep, inside, body[close..]);
  }

  lemma BracedFits(o: Overrides, body: string, open: nat, v: Value)
    requires v.Obj? && Braced(body, open, v)
    ensures var es := EditsFrom(o, open, v.members, 0); Fitting(|body|, 0, es) && Fitting(|body|, open, es) && open + |Inside(v)| <= |body|
  {
    hide EditsFrom, Inside, Fitting;
    AtLast(body, open, v);
    assert MemberAt(open, v.members, 0) == open;
    EditsFit(o, open, v.members, 0, |body|, 0);
    EditsFit(o, open, v.members, 0, |body|, open);
    OpenInside(body, open, v);
  }

  lemma OpenInside(body: string, open: nat, v: Value)
    requires v.Obj? && Braced(body, open, v)
    ensures open + |Inside(v)| <= |body|
  {}

  lemma EscapedKeys(o: Overrides, members: seq<Member>)
    ensures Refuses(o, members) <==>
            !((o.model != "" ==> Named(members, "model")) && Settable(o, members)) ||
            (Listing(Absent(o, members)) != "" && Escaped(members))
  {
    hide Listing, Named, Settable, Absent, Escaped;
    ListingEmpty(Absent(o, members));
  }

  /** What a body is rewritten to: itself without overrides, else the text of its tree with them set,
      if the values are clean, the parser takes it and the tree can take them. */
  function HeldBody(body: string, parsed: Option<Doc>, o: Overrides): Option<string> {
    if o.Empty() then Some(body)
    else if AllClean(o) && parsed.Some? && parsed.value.value.Obj? && !Refuses(o, parsed.value.value.members)
    then Some(DocText(HeldDoc(o, parsed.value)))
    else None
  }

  lemma ParsedDistinct(body: string, parsed: Option<Doc>)
    requires Parsed(body, parsed) && parsed.Some? && parsed.value.value.Obj?
    ensures DocOk(parsed.value) && DocText(parsed.value) == body && DistinctKeys(parsed.value.value.members)
  {
    hide DocOk, DocText, Depth;
    KeysDistinct(parsed.value.value.members);
  }

  lemma KeysDistinct(members: seq<Member>)
    requires JsonKeys.UniqueKeys(KeysOf(members))
    ensures DistinctKeys(members)
  {
    JsonKeys.ReadApart(KeysOf(members));
    forall i, j | 0 <= i < j < |members| ensures members[i].key != members[j].key {
      assert KeysOf(members)[i] != KeysOf(members)[j];
    }
  }

  /** `apply_overrides`: gathers the edits off the tree and applies them to the text. */
  method ApplyOverrides(body: string, parsed: Option<Doc>, o: Overrides) returns (out: Option<string>, had: string)
    requires Parsed(body, parsed)
    ensures out == HeldBody(body, parsed, o)
    ensures out.Some? && !o.Empty() ==> TierReplaced(o, parsed.value.value.members, had)
  {
    hide DocText, HeldDoc, Gathered, Settable, Named, Escaped, AllClean, DocOk, Absent, Refuses, Listing, TierReplaced, Parsed;
    had := "";
    if o.Empty() { return Some(body), had; }
    if !AllClean(o) || parsed.None? || !parsed.value.value.Obj? { return None, had; }
    ParsedDistinct(body, parsed);
    var d := parsed.value;
    var ok, es, n, ins;
    ok, es, n, ins, had := GatherEdits(o, |d.pre| + 1, d.value.members);
    EscapedKeys(o, d.value.members);
    if !ok { return None, had; }
    GatheredEnds(o, |d.pre| + 1, d.value.members, es[..n], ins);
    if ins != "" && Escaped(d.value.members) { return None, had; }
    var text := Rewrite(body, d, o, es, n, ins);
    out := Some(text);
  }
}
