/** What the splice makes of each root member, read off the tree of the body. */
module SplicePieces {
  import opened Json
  import opened Options
  import opened Automaton
  import opened SpanPlaces
  import opened Splicing

  // ---------------------------------------------------------------- which span is whose

  /** On [sep, next), where the member at `at` and its separator stand, the marks are this member's. */
  ghost predicate Owns(cfg: Config, marks: Marks, sep: nat, at: nat, next: nat, m: Member) {
    var f := FieldIn(cfg.mask, m.key);
    && (forall k | 0 <= k < |marks.found| ::
          || marks.found[k].end <= sep || marks.found[k].at >= next
          || (f.Some? && marks.found[k] == Span(sep, ValueAt(at, m), ValueEnd(at, m), f.value)))
    && (f.Some? ==> Span(sep, ValueAt(at, m), ValueEnd(at, m), f.value) in marks.found)
    && (if cfg.trackModel && m.key == "model"
        then marks.modelAt == Some(ValueAt(at, m)) && marks.modelEnd == Some(ValueEnd(at, m))
        else marks.modelEnd.None? || marks.modelAt.None? || marks.modelEnd.value <= sep || marks.modelAt.value >= next)
  }

  /** No span told so far reaches past `sep`. */
  predicate EndsBy(marks: Marks, sep: nat) {
    && (forall k | 0 <= k < |marks.found| :: marks.found[k].end <= sep)
    && (marks.modelEnd.Some? ==> marks.modelEnd.value <= sep)
    && (marks.modelEnd.Some? <==> marks.modelAt.Some?)
  }

  predicate NoModel(members: seq<Member>) { forall m <- members :: m.key != "model" }

  /** At most one of the members is the model, and none once it was told. */
  predicate OneModel(marks: Marks, members: seq<Member>)
    decreases |members|
  {
    && (marks.modelEnd.Some? ==> NoModel(members))
    && (members != [] && members[0].key == "model" ==> NoModel(members[1..]))
    && (members != [] ==> OneModel(marks, members[1..]))
  }

  /** Later members tell spans after theirs begin, and change nothing told before. */
  lemma {:induction false} TellLater(cfg: Config, marks: Marks, sep: nat, at: nat, members: seq<Member>)
    requires sep <= at && OneModel(marks, members)
    ensures var t := TellAll(cfg, marks, sep, at, members);
            && t.openAt == marks.openAt && (marks.hasMember ==> t.hasMember)
            && marks.found <= t.found && (forall k | |marks.found| <= k < |t.found| :: t.found[k].at >= sep)
            && (NoModel(members) ==> t.modelAt == marks.modelAt && t.modelEnd == marks.modelEnd)
            && ((t.modelAt == marks.modelAt && t.modelEnd == marks.modelEnd) ||
                (t.modelAt.Some? && t.modelAt.value >= sep))
    decreases |members|
  {
    hide MemberText, MemberHead, Text;
    if members != [] {
      var m, next := members[0], at + |MemberText(members[0])|;
      var u := Told(cfg, marks, sep, at, m);
      OneModelAfter(cfg, marks, sep, at, members);
      TellLater(cfg, u, next, next + 1, members[1..]);
    }
  }

  lemma OneModelAfter(cfg: Config, marks: Marks, sep: nat, at: nat, members: seq<Member>)
    requires members != [] && OneModel(marks, members)
    ensures OneModel(Told(cfg, marks, sep, at, members[0]), members[1..])
  {
    hide MemberText, MemberHead, Text;
    var u := Told(cfg, marks, sep, at, members[0]);
    if u.modelEnd.Some? { OneModelTold(u, members[1..]); }
    else { OneModelSame(marks, u, members[1..]); }
  }

  lemma {:induction false} OneModelTold(marks: Marks, members: seq<Member>)
    requires NoModel(members)
    ensures OneModel(marks, members)
    decreases |members|
  {
    if members != [] { OneModelTold(marks, members[1..]); }
  }

  lemma {:induction false} OneModelSame(a: Marks, b: Marks, members: seq<Member>)
    requires OneModel(a, members) && b.modelEnd.None?
    ensures OneModel(b, members)
    decreases |members|
  {
    if members != [] { OneModelSame(a, b, members[1..]); }
  }

  /** Where the member after this one has its separator. */
  function Next(at: nat, m: Member): nat { at + |MemberText(m)| }

  lemma NextIs(at: nat, m: Member)
    ensures Next(at, m) == ValueEnd(at, m) + |m.post|
  {
    hide Text, MemberHead;
  }

  /** What one member tells ends by its own end. */
  lemma EndsAfter(cfg: Config, marks: Marks, sep: nat, at: nat, m: Member)
    requires sep <= at && EndsBy(marks, sep)
    ensures EndsBy(Told(cfg, marks, sep, at, m), Next(at, m))
  {
    hide MemberText, MemberHead, Text;
    NextIs(at, m);
  }

  /** Marks that add to the member's own only spans past `next` are its own where it stands. */
  lemma OwnsFrom(cfg: Config, marks: Marks, t: Marks, sep: nat, at: nat, next: nat, m: Member)
    requires sep <= at && EndsBy(marks, sep)
    requires var u := Told(cfg, marks, sep, at, m);
             && u.found <= t.found && (forall k | |u.found| <= k < |t.found| :: t.found[k].at >= next)
             && (u.modelEnd.Some? && t.modelEnd.Some? && t.modelAt.Some? ==>
                   (t.modelAt == u.modelAt && t.modelEnd == u.modelEnd) || t.modelAt.value >= next)
             && (u.modelEnd.None? ==> t.modelEnd == u.modelEnd || (t.modelAt.Some? && t.modelAt.value >= next))
             && (cfg.trackModel && m.key == "model" ==> t.modelAt == u.modelAt && t.modelEnd == u.modelEnd)
    ensures Owns(cfg, t, sep, at, next, m)
  {
    hide MemberText, MemberHead, Text, ValueAt, ValueEnd;
    var u := Told(cfg, marks, sep, at, m);
    forall k | 0 <= k < |u.found| ensures t.found[k] == u.found[k] {}
    if FieldIn(cfg.mask, m.key).Some? { assert t.found[|marks.found|] == u.found[|marks.found|]; }
  }

  /** The final marks are the first member's own where it stands. */
  lemma OwnsFirst(cfg: Config, marks: Marks, sep: nat, at: nat, members: seq<Member>)
    requires members != [] && sep <= at && EndsBy(marks, sep) && OneModel(marks, members)
    ensures Owns(cfg, TellAll(cfg, marks, sep, at, members), sep, at, Next(at, members[0]), members[0])
    ensures EndsBy(Told(cfg, marks, sep, at, members[0]), Next(at, members[0]))
    ensures OneModel(Told(cfg, marks, sep, at, members[0]), members[1..])
  {
    hide MemberText, MemberHead, Text, Owns, EndsBy;
    var m, next := members[0], Next(at, members[0]);
    OneModelAfter(cfg, marks, sep, at, members);
    TellLater(cfg, Told(cfg, marks, sep, at, m), next, next + 1, members[1..]);
    OwnsFrom(cfg, marks, TellAll(cfg, marks, sep, at, members), sep, at, next, m);
    EndsAfter(cfg, marks, sep, at, m);
  }

  // ---------------------------------------------------------------- one member

  /** The policy replaces this member of the client's. */
  predicate Drops(sp: Splice, m: Member) { FieldIn(sp.members.Mask(), m.key).Some? }

  predicate Substitutes(sp: Splice, hit: bool, m: Member) { hit && m.key == "model" }

  /** What the member and the separator before it go as. */
  function PieceText(sp: Splice, hit: bool, sep: string, m: Member): string {
    if Drops(sp, m) then Spaces(|sep| + |MemberHead(m)| + |Text(m.value)|) + m.post
    else if Substitutes(sp, hit, m) then sep + MemberHead(m) + sp.model.Value() + m.post
    else sep + MemberText(m)
  }

  lemma FieldInSmaller(sp: Splice, cfg: Config, key: string)
    requires sp.members.Mask() <= cfg.mask
    ensures FieldIn(sp.members.Mask(), key).Some? ==> FieldIn(cfg.mask, key) == FieldIn(sp.members.Mask(), key)
  {}

  /** No byte from `a` up to `b` of the member's place is in a blanked span. */
  lemma NotInOwn(cfg: Config, sp: Splice, marks: Marks, sep: nat, at: nat, next: nat, m: Member, i: nat)
    requires Owns(cfg, marks, sep, at, next, m) && sp.members.Mask() <= cfg.mask && sep <= i < next
    requires !Drops(sp, m) || ValueEnd(at, m) <= i
    ensures !Blanked(sp, marks, i)
  {
    hide ValueAt, ValueEnd;
    FieldInSmaller(sp, cfg, m.key);
    forall k | 0 <= k < |marks.found| && marks.found[k].at <= i < marks.found[k].end
      ensures marks.found[k].field !in sp.members.Mask()
    {
      OwnField(cfg, sp, m, marks.found[k].field);
    }
  }

  /** A field of the mask this key names, and the policy does not set it. */
  lemma OwnField(cfg: Config, sp: Splice, m: Member, f: Field)
    ensures FieldIn(cfg.mask, m.key) == Some(f) && !Drops(sp, m) ==> f !in sp.members.Mask()
  {}

  lemma InOwn(cfg: Config, sp: Splice, marks: Marks, sep: nat, at: nat, next: nat, m: Member, i: nat)
    requires Owns(cfg, marks, sep, at, next, m) && sp.members.Mask() <= cfg.mask
    requires Drops(sp, m) && sep <= i < ValueEnd(at, m)
    ensures Blanked(sp, marks, i)
  {
    hide ValueAt, ValueEnd;
    FieldInSmaller(sp, cfg, m.key);
    var own := Span(sep, ValueAt(at, m), ValueEnd(at, m), FieldIn(cfg.mask, m.key).value);
    var k :| 0 <= k < |marks.found| && marks.found[k] == own;
    assert marks.found[k].field in sp.members.Mask();
  }

  /** A member the policy replaces goes as spaces, with its separator. */
  lemma PieceDropped(cfg: Config, sp: Splice, body: string, marks: Marks, sep: nat, at: nat, m: Member)
    requires sp.members.Mask() <= cfg.mask && sep <= at && Next(at, m) <= |body|
    requires Owns(cfg, marks, sep, at, Next(at, m), m) && Drops(sp, m)
    requires body[ValueEnd(at, m)..Next(at, m)] == m.post
    ensures Image(sp, body, marks, sep, Next(at, m)) == Spaces(ValueEnd(at, m) - sep) + m.post
  {
    hide Image, Blanked, MemberText, MemberHead, Text, Owns, Drops;
    NextIs(at, m);
    var end, next := ValueEnd(at, m), Next(at, m);
    forall i: nat | sep <= i < end ensures Blanked(sp, marks, i) { InOwn(cfg, sp, marks, sep, at, next, m, i); }
    ImageBlank(sp, body, marks, sep, end);
    forall i: nat | end <= i < next ensures !Blanked(sp, marks, i) { NotInOwn(cfg, sp, marks, sep, at, next, m, i); }
    if sp.Hit(body, marks) { DroppedModel(cfg, sp, body, marks, sep, at, m); }
    ImagePlain(sp, body, marks, end, next);
    ImageSplit(sp, body, marks, sep, end, next);
  }

  lemma DroppedModel(cfg: Config, sp: Splice, body: string, marks: Marks, sep: nat, at: nat, m: Member)
    requires Owns(cfg, marks, sep, at, Next(at, m), m) && Drops(sp, m) && sp.Hit(body, marks)
    ensures marks.modelEnd.value <= sep || marks.modelAt.value >= Next(at, m)
  {
    NamesApart();
  }

  /** A member that stays goes as it is, but for a sentinel model. */
  lemma PieceKept(cfg: Config, sp: Splice, body: string, marks: Marks, sep: nat, at: nat, m: Member, s: string)
    requires sp.members.Mask() <= cfg.mask && sep + |s| == at && Next(at, m) <= |body|
    requires (sp.model.sentinel != "" ==> cfg.trackModel)
    requires Owns(cfg, marks, sep, at, Next(at, m), m) && !Drops(sp, m)
    requires body[sep..Next(at, m)] == s + MemberText(m)
    ensures Image(sp, body, marks, sep, Next(at, m)) == PieceText(sp, sp.Hit(body, marks), s, m)
  {
    hide Image, Blanked, MemberHead, Text, Drops;
    NextIs(at, m);
    var v, end, next := ValueAt(at, m), ValueEnd(at, m), Next(at, m);
    forall i: nat | sep <= i < next ensures !Blanked(sp, marks, i) { NotInOwn(cfg, sp, marks, sep, at, next, m, i); }
    if Substitutes(sp, sp.Hit(body, marks), m) {
      ValueLong(sp, body, marks);
      ImageModel(sp, body, marks, end);
      ImageSplit(sp, body, marks, sep, v, next);
      ImageSplit(sp, body, marks, v, end, next);
      ImagePlain(sp, body, marks, sep, v);
      ImagePlain(sp, body, marks, end, next);
      PieceSlices(body, sep, s, MemberHead(m), Text(m.value), m.post);
    } else {
      ImagePlain(sp, body, marks, sep, next);
    }
  }

  lemma ValueLong(sp: Splice, body: string, marks: Marks)
    requires sp.Hit(body, marks)
    ensures marks.modelAt.value < marks.modelEnd.value
  {}

  lemma PieceSlices(body: string, sep: nat, s: string, head: string, text: string, post: string)
    requires sep + |s| + |head| + |text| + |post| <= |body|
    requires body[sep..sep + |s| + |head| + |text| + |post|] == s + (head + text + post)
    ensures body[sep..sep + |s| + |head|] == s + head
    ensures body[sep + |s| + |head| + |text|..sep + |s| + |head| + |text| + |post|] == post
  {
    var w := s + (head + text + post);
    assert w[..|s| + |head|] == s + head;
    assert w[|s| + |head| + |text|..] == post;
  }
}
