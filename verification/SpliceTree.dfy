/** What the venue reads of a spliced body: one JSON object, with the policy's members first and
    then the client's, less the ones the policy replaces and with a sentinel model replaced.
 */
module SpliceTree {
  import opened Json
  import opened Automaton
  import opened SpanPlaces
  import opened Splicing
  import opened SplicePieces

  // ---------------------------------------------------------------- members as pieces

  /** Members as they follow another one in the text. */
  function Commas(members: seq<Member>): string
    decreases |members|
  {
    if members == [] then "" else "," + MemberText(members[0]) + Commas(members[1..])
  }

  lemma {:induction false} MembersCommas(members: seq<Member>)
    requires members != []
    ensures MembersText(members) == MemberText(members[0]) + Commas(members[1..])
    decreases |members|
  {
    hide MemberText;
    if |members| > 1 {
      MembersCommas(members[1..]);
      assert MembersText(members) == MemberText(members[0]) + ("," + MembersText(members[1..]));
    }
  }

  /** What those members go as. */
  function Pieces(sp: Splice, hit: bool, members: seq<Member>): string
    decreases |members|
  {
    if members == [] then "" else PieceText(sp, hit, ",", members[0]) + Pieces(sp, hit, members[1..])
  }

  lemma Slices(body: string, i: nat, a: string, b: string)
    requires i + |a| + |b| <= |body| && body[i..i + |a| + |b|] == a + b
    ensures body[i..i + |a|] == a && body[i + |a|..i + |a| + |b|] == b
  {
    var w := body[i..i + |a| + |b|];
    assert body[i..i + |a|] == w[..|a|] && body[i + |a|..i + |a| + |b|] == w[|a|..];
  }

  /** One member and its separator, wherever it stands. */
  lemma PieceOne(cfg: Config, sp: Splice, body: string, marks: Marks, sep: nat, at: nat, m: Member, s: string)
    requires sp.members.Mask() <= cfg.mask && sep + |s| == at && Next(at, m) <= |body|
    requires sp.model.sentinel != "" ==> cfg.trackModel
    requires Owns(cfg, marks, sep, at, Next(at, m), m) && body[sep..Next(at, m)] == s + MemberText(m)
    ensures Image(sp, body, marks, sep, Next(at, m)) == PieceText(sp, sp.Hit(body, marks), s, m)
  {
    hide Image, MemberHead, Text, Drops, Owns;
    if Drops(sp, m) {
      NextIs(at, m);
      assert s + (MemberHead(m) + Text(m.value) + m.post) == (s + MemberHead(m) + Text(m.value)) + m.post;
      Slices(body, sep, s + MemberHead(m) + Text(m.value), m.post);
      PieceDropped(cfg, sp, body, marks, sep, at, m);
    } else {
      PieceKept(cfg, sp, body, marks, sep, at, m, s);
    }
  }

  lemma {:induction false} ImagePieces(cfg: Config, sp: Splice, body: string, marks: Marks, all: Marks, sep: nat, members: seq<Member>)
    requires sp.members.Mask() <= cfg.mask && (sp.model.sentinel != "" ==> cfg.trackModel)
    requires EndsBy(marks, sep) && OneModel(marks, members) && all == TellAll(cfg, marks, sep, sep + 1, members)
    requires sep + |Commas(members)| <= |body| && body[sep..sep + |Commas(members)|] == Commas(members)
    ensures Image(sp, body, all, sep, sep + |Commas(members)|) == Pieces(sp, sp.Hit(body, all), members)
    decreases |members|
  {
    hide Image, MemberText, Owns, EndsBy, OneModel, Told, PieceText;
    if members == [] {
      ImageNone(sp, body, all, sep);
    } else {
      var m, at, next, end := members[0], sep + 1, Next(sep + 1, members[0]), sep + |Commas(members)|;
      Slices(body, sep, "," + MemberText(m), Commas(members[1..]));
      OwnsFirst(cfg, marks, sep, at, members);
      PieceOne(cfg, sp, body, all, sep, at, m, ",");
      ImagePieces(cfg, sp, body, Told(cfg, marks, sep, at, m), all, next, members[1..]);
      ImageSplit(sp, body, all, sep, next, end);
    }
  }

  /** All the members of an object that has some. */
  lemma ImageMembers(cfg: Config, sp: Splice, body: string, marks: Marks, all: Marks, open: nat, members: seq<Member>)
    requires sp.members.Mask() <= cfg.mask && (sp.model.sentinel != "" ==> cfg.trackModel) && members != []
    requires EndsBy(marks, open) && OneModel(marks, members) && all == TellAll(cfg, marks, open, open, members)
    requires open + |MembersText(members)| <= |body| && body[open..open + |MembersText(members)|] == MembersText(members)
    ensures var hit := sp.Hit(body, all);
            Image(sp, body, all, open, open + |MembersText(members)|)
            == PieceText(sp, hit, "", members[0]) + Pieces(sp, hit, members[1..])
  {
    hide Image, MemberText, MembersText, Owns, EndsBy, OneModel, Told, PieceText, Commas, Pieces;
    var m, next, end := members[0], Next(open, members[0]), open + |MembersText(members)|;
    MembersCommas(members);
    Slices(body, open, MemberText(m), Commas(members[1..]));
    assert "" + MemberText(m) == MemberText(m);
    OwnsFirst(cfg, marks, open, open, members);
    PieceOne(cfg, sp, body, all, open, open, m, "");
    ImagePieces(cfg, sp, body, Told(cfg, marks, open, open, m), all, next, members[1..]);
    ImageSplit(sp, body, all, open, next, end);
  }

  // ---------------------------------------------------------------- pieces as members

  /** A member kept: a sentinel model goes replaced, with spaces after it. */
  function Kept(sp: Splice, hit: bool, m: Member): Member {
    if Substitutes(sp, hit, m)
    then m.(value := Str(sp.model.replacement), post := Spaces(sp.model.Shrink()) + m.post)
    else m
  }

  /** More blank after the last member. */
  function Padded(members: seq<Member>, blank: string): (r: seq<Member>)
    requires members != []
    ensures |r| == |members|
  {
    var last := members[|members| - 1];
    members[..|members| - 1] + [last.(post := last.post + blank)]
  }

  /** The members read once `m` and its separator were written after `acc`. */
  function Add(sp: Splice, hit: bool, acc: seq<Member>, m: Member): (r: seq<Member>)
    requires acc != []
    ensures r != []
  {
    if Drops(sp, m) then Padded(acc, Spaces(1 + |MemberHead(m)| + |Text(m.value)|) + m.post)
    else acc + [Kept(sp, hit, m)]
  }

  function Weave(sp: Splice, hit: bool, acc: seq<Member>, members: seq<Member>): (r: seq<Member>)
    requires acc != []
    ensures r != []
    decreases |members|
  {
    if members == [] then acc else Weave(sp, hit, Add(sp, hit, acc, members[0]), members[1..])
  }

  lemma HeadAlone(m: Member, value: Value, post: string)
    ensures MemberHead(m.(value := value, post := post)) == MemberHead(m)
  {}

  lemma PaddedText(members: seq<Member>, blank: string)
    requires members != []
    ensures MembersText(Padded(members, blank)) == MembersText(members) + blank
  {
    hide MembersText, MemberHead, Text;
    var front, last := members[..|members| - 1], members[|members| - 1];
    assert members == front + [last];
    MembersTextSnoc(front, last);
    MembersTextSnoc(front, last.(post := last.post + blank));
    HeadAlone(last, last.value, last.post + blank);
    assert last.(post := last.post + blank) == last.(value := last.value, post := last.post + blank);
    assert MemberText(last.(post := last.post + blank)) == MemberText(last) + blank;
  }

  lemma KeptText(sp: Splice, hit: bool, m: Member)
    requires !Drops(sp, m)
    ensures "," + MemberText(Kept(sp, hit, m)) == PieceText(sp, hit, ",", m)
  {
    hide MemberHead, Drops;
    if Substitutes(sp, hit, m) {
      var spaces := Spaces(sp.model.Shrink());
      assert Text(Str(sp.model.replacement)) == "\"" + sp.model.replacement + "\"";
      HeadAlone(m, Str(sp.model.replacement), spaces + m.post);
      KeptJoin(MemberHead(m), Text(Str(sp.model.replacement)), spaces, m.post);
    }
  }

  lemma KeptJoin(head: string, text: string, spaces: string, post: string)
    ensures "," + (head + text + (spaces + post)) == "," + head + (text + spaces) + post
  {}

  lemma AddText(sp: Splice, hit: bool, acc: seq<Member>, m: Member)
    requires acc != []
    ensures MembersText(Add(sp, hit, acc, m)) == MembersText(acc) + PieceText(sp, hit, ",", m)
  {
    hide MembersText, MemberText, MemberHead, Text, Kept, Padded, Drops;
    if Drops(sp, m) {
      PaddedText(acc, Spaces(1 + |MemberHead(m)| + |Text(m.value)|) + m.post);
    } else {
      MembersTextSnoc(acc, Kept(sp, hit, m));
      KeptText(sp, hit, m);
      assert MembersText(acc) + "," + MemberText(Kept(sp, hit, m)) == MembersText(acc) + ("," + MemberText(Kept(sp, hit, m)));
    }
  }

  /** Writing the pieces after the text of `acc` writes the text of the members woven. */
  lemma {:induction false} WeaveText(sp: Splice, hit: bool, acc: seq<Member>, members: seq<Member>)
    requires acc != []
    ensures MembersText(Weave(sp, hit, acc, members)) == MembersText(acc) + Pieces(sp, hit, members)
    decreases |members|
  {
    hide MembersText, PieceText, Add;
    if members != [] {
      AddText(sp, hit, acc, members[0]);
      WeaveText(sp, hit, Add(sp, hit, acc, members[0]), members[1..]);
    }
  }

  // ---------------------------------------------------------------- keys and values

  /** What a reader of an object gets: its keys and values, in order. */
  function Pairs(members: seq<Member>): (r: seq<(string, Value)>)
    ensures |r| == |members|
  {
    seq(|members|, i requires 0 <= i < |members| => (members[i].key, members[i].value))
  }

  lemma PairsSum(a: seq<Member>, b: seq<Member>)
    ensures Pairs(a + b) == Pairs(a) + Pairs(b)
  {}

  /** The client's members that stay, a sentinel model replaced. */
  function KeptPairs(sp: Splice, hit: bool, members: seq<Member>): seq<(string, Value)>
    decreases |members|
  {
    if members == [] then []
    else (if Drops(sp, members[0]) then [] else Pairs([Kept(sp, hit, members[0])])) + KeptPairs(sp, hit, members[1..])
  }

  lemma AddPairs(sp: Splice, hit: bool, acc: seq<Member>, m: Member)
    requires acc != []
    ensures Pairs(Add(sp, hit, acc, m)) == Pairs(acc) + if Drops(sp, m) then [] else Pairs([Kept(sp, hit, m)])
  {
    hide Drops, Kept, MemberHead, Text;
  }

  lemma {:induction false} WeavePairs(sp: Splice, hit: bool, acc: seq<Member>, members: seq<Member>)
    requires acc != []
    ensures Pairs(Weave(sp, hit, acc, members)) == Pairs(acc) + KeptPairs(sp, hit, members)
    decreases |members|
  {
    hide Pairs, Add, Drops, Kept;
    if members != [] {
      AddPairs(sp, hit, acc, members[0]);
      WeavePairs(sp, hit, Add(sp, hit, acc, members[0]), members[1..]);
    }
  }

  // ---------------------------------------------------------------- well-formedness

  /** Text that goes between quotes as it is (MemberSplice::plain; both halves of a substitution). */
  predicate AsIs(s: string) { forall k | 0 <= k < |s| :: Plain(s[k]) }

  predicate SpliceOk(sp: Splice) {
    AsIs(sp.members.serviceTier) && AsIs(sp.members.speed) && AsIs(sp.members.inferenceGeo) && AsIs(sp.model.replacement)
  }

  lemma {:induction false} AsIsBody(s: string)
    requires AsIs(s)
    ensures StringBody(s)
    decreases |s|
  {
    if s != "" { AsIsBody(s[1..]); }
  }

  predicate AllOk(members: seq<Member>) { forall m <- members :: MemberOk(m) }

  lemma AddOk(sp: Splice, hit: bool, acc: seq<Member>, m: Member)
    requires acc != [] && AllOk(acc) && MemberOk(m) && SpliceOk(sp)
    ensures AllOk(Add(sp, hit, acc, m))
  {
    hide MemberHead, Text, Drops, StringBody;
    AsIsBody(sp.model.replacement);
    var r := Add(sp, hit, acc, m);
    if Drops(sp, m) {
      assert MemberOk(acc[|acc| - 1]);
      assert ValueOk(acc[|acc| - 1].value);
      assert r[|r| - 1].value == acc[|acc| - 1].value;
      assert MemberOk(r[|r| - 1]);
    } else {
      KeptOk(sp, hit, m);
    }
  }

  lemma KeptOk(sp: Splice, hit: bool, m: Member)
    requires MemberOk(m) && SpliceOk(sp)
    ensures MemberOk(Kept(sp, hit, m))
  {
    hide StringBody;
    AsIsBody(sp.model.replacement);
  }

  lemma {:induction false} WeaveOk(sp: Splice, hit: bool, acc: seq<Member>, members: seq<Member>)
    requires acc != [] && AllOk(acc) && AllOk(members) && SpliceOk(sp)
    ensures AllOk(Weave(sp, hit, acc, members))
    decreases |members|
  {
    hide Add, MemberOk, SpliceOk;
    if members != [] {
      AddOk(sp, hit, acc, members[0]);
      WeaveOk(sp, hit, Add(sp, hit, acc, members[0]), members[1..]);
    }
  }

  lemma FieldKeyOk(f: Field)
    ensures StringBody(FieldKey(f))
  {
    hide StringBody;
    assert AsIs(FieldKey(f));
    AsIsBody(FieldKey(f));
  }

  lemma PolicyOneOk(ms: MemberSplice, f: Field)
    requires AsIs(ms.Of(f))
    ensures AllOk(ms.MemberOf(f))
  {
    hide StringBody, FieldKey;
    AsIsBody(ms.Of(f));
    FieldKeyOk(f);
    if ms.Of(f) != "" {
      var m := ms.MemberOf(f)[0];
      assert ValueOk(m.value);
      assert MemberOk(m);
    }
  }

  lemma AllOkSum(a: seq<Member>, b: seq<Member>)
    requires AllOk(a) && AllOk(b)
    ensures AllOk(a + b)
  {
    hide MemberOk;
  }

  lemma PolicyOk(sp: Splice)
    requires SpliceOk(sp)
    ensures AllOk(sp.members.Members())
  {
    hide AllOk;
    var ms := sp.members;
    PolicyOneOk(ms, ServiceTier);
    PolicyOneOk(ms, Speed);
    PolicyOneOk(ms, InferenceGeo);
    AllOkSum(ms.MemberOf(ServiceTier), ms.MemberOf(Speed));
    AllOkSum(ms.MemberOf(ServiceTier) + ms.MemberOf(Speed), ms.MemberOf(InferenceGeo));
  }
}
