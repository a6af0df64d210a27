/** The stream and the held rewrite say the same thing: on every object the scan takes, the venue
    reads the same keys and values off either, in a different order, whenever the held rewrite is
    done; and that is exactly when the parser takes the body too and the values are clean.
 */
module HeldAgrees {
  import opened Json
  import opened Options
  import opened Automaton
  import opened ScanRules
  import opened Splicing
  import opened SplicePieces
  import opened SpliceStream
  import opened SpliceTree
  import opened SpliceResult
  import opened HeldRewrite
  import opened HeldText
  import opened JsonKeys
  import opened JsonEscapes
  import opened JsonParser
  import opened ScanAccepts

  /** What the gateway overrides when it sends this body whole: the members, and the model if it is the sentinel. */
  function HeldOverrides(sp: Splice, members: seq<Member>): Overrides {
    Overrides(if SentinelSent(sp, members) then sp.model.replacement else "", sp.members)
  }

  /** The pair the policy sets for this field. */
  function Set(ms: MemberSplice, f: Field): multiset<(string, Value)> {
    if ms.Of(f) == "" then multiset{} else multiset{(FieldKey(f), Str(ms.Of(f)))}
  }

  function SetIf(ms: MemberSplice, f: Field, b: bool): multiset<(string, Value)> { if b then Set(ms, f) else multiset{} }

  lemma PolicyPairs(ms: MemberSplice)
    ensures multiset(Pairs(ms.Members())) == Set(ms, ServiceTier) + Set(ms, Speed) + Set(ms, InferenceGeo)
  {
    hide Pairs;
    var a, b, c := ms.MemberOf(ServiceTier), ms.MemberOf(Speed), ms.MemberOf(InferenceGeo);
    PairsSum(a, b);
    PairsSum(a + b, c);
    OnePair(ms, ServiceTier);
    OnePair(ms, Speed);
    OnePair(ms, InferenceGeo);
  }

  lemma OnePair(ms: MemberSplice, f: Field)
    ensures multiset(Pairs(ms.MemberOf(f))) == Set(ms, f)
  {
    if ms.Of(f) == "" {
      assert Pairs([]) == [];
    } else {
      assert Pairs(ms.MemberOf(f)) == [(FieldKey(f), Str(ms.Of(f)))];
    }
  }

  lemma AbsentPairs(o: Overrides, members: seq<Member>)
    ensures multiset(Pairs(Absent(o, members)))
            == SetIf(o.members, ServiceTier, !Named(members, FieldKey(ServiceTier))) +
               SetIf(o.members, Speed, !Named(members, FieldKey(Speed))) +
               SetIf(o.members, InferenceGeo, !Named(members, FieldKey(InferenceGeo)))
  {
    hide Pairs, Named;
    var a, b, c := AbsentOf(o, members, ServiceTier), AbsentOf(o, members, Speed), AbsentOf(o, members, InferenceGeo);
    PairsSum(a, b);
    PairsSum(a + b, c);
    assert Pairs([]) == [] by { NoPairs(); }
    OnePair(o.members, ServiceTier);
    OnePair(o.members, Speed);
    OnePair(o.members, InferenceGeo);
  }

  lemma NoPairs()
    ensures Pairs([]) == []
  {}

  /** The pairs the policy sets in place of the client's. */
  function InPlace(ms: MemberSplice, members: seq<Member>): multiset<(string, Value)> {
    SetIf(ms, ServiceTier, Named(members, FieldKey(ServiceTier))) +
    SetIf(ms, Speed, Named(members, FieldKey(Speed))) +
    SetIf(ms, InferenceGeo, Named(members, FieldKey(InferenceGeo)))
  }

  lemma NamedFirst(members: seq<Member>, key: string)
    requires members != []
    ensures Named(members, key) <==> members[0].key == key || Named(members[1..], key)
  {
    if Named(members, key) {
      var k :| 0 <= k < |members| && members[k].key == key;
      if k > 0 { assert members[1..][k - 1].key == key; }
    }
    if Named(members[1..], key) {
      var k :| 0 <= k < |members[1..]| && members[1..][k].key == key;
      assert members[k + 1].key == key;
    }
  }

  lemma InPlaceOne(sp: Splice, members: seq<Member>, f: Field)
    requires members != [] && DistinctKeys(members)
    ensures SetIf(sp.members, f, Named(members, FieldKey(f)))
            == SetIf(sp.members, f, Named(members[1..], FieldKey(f))) +
               if Drops(sp, members[0]) && FieldOf(members[0].key) == Some(f) then Set(sp.members, f) else multiset{}
  {
    hide Named, FieldKey, DistinctKeys, FieldOf;
    NamedFirst(members, FieldKey(f));
    NotAgain(members);
    KeyField(f, members[0].key);
  }

  lemma InPlaceFirst(sp: Splice, members: seq<Member>)
    requires members != [] && DistinctKeys(members)
    ensures InPlace(sp.members, members)
            == InPlace(sp.members, members[1..]) +
               if Drops(sp, members[0]) then Set(sp.members, FieldOf(members[0].key).value) else multiset{}
  {
    hide Named, FieldKey, DistinctKeys, FieldOf, SetIf, Set;
    InPlaceOne(sp, members, ServiceTier);
    InPlaceOne(sp, members, Speed);
    InPlaceOne(sp, members, InferenceGeo);
  }

  lemma NotAgain(members: seq<Member>)
    requires members != [] && DistinctKeys(members)
    ensures !Named(members[1..], members[0].key)
  {
    forall k | 0 <= k < |members[1..]| ensures members[1..][k].key != members[0].key {
      assert members[1..][k] == members[k + 1];
    }
  }

  lemma KeyField(f: Field, key: string)
    ensures key == FieldKey(f) <==> FieldOf(key) == Some(f)
  {
    assert "service_tier"[1] == 'e' && "speed"[1] == 'p' && "inference_geo"[0] == 'i';
  }

  lemma FieldKeyed(key: string)
    ensures FieldOf(key).Some? ==> FieldKey(FieldOf(key).value) == key
  {}

  /** One member: kept, or set in place of the client's. */
  lemma OneMember(sp: Splice, members: seq<Member>, m: Member)
    requires sp.model.replacement != "" || sp.model.sentinel == ""
    ensures var o, hit := HeldOverrides(sp, members), SentinelSent(sp, members);
            multiset(Pairs([SetMember(o, m)]))
            == multiset(if Drops(sp, m) then [] else Pairs([Kept(sp, hit, m)])) +
               if Drops(sp, m) then Set(sp.members, FieldOf(m.key).value) else multiset{}
  {
    hide ModelOf, FieldKey;
    var o, hit := HeldOverrides(sp, members), SentinelSent(sp, members);
    NamesApart();
    FieldKeyed(m.key);
    assert Pairs([SetMember(o, m)]) == [(SetMember(o, m).key, SetMember(o, m).value)];
    assert Pairs([Kept(sp, hit, m)]) == [(Kept(sp, hit, m).key, Kept(sp, hit, m).value)];
  }

  lemma {:induction false} HeldPairs(sp: Splice, all: seq<Member>, members: seq<Member>)
    requires DistinctKeys(members)
    requires sp.model.replacement != "" || sp.model.sentinel == ""
    ensures multiset(Pairs(SetAll(HeldOverrides(sp, all), members)))
            == multiset(KeptPairs(sp, SentinelSent(sp, all), members)) + InPlace(sp.members, members)
    decreases |members|
  {
    hide Pairs, SetMember, Kept, Drops, InPlace, SentinelSent, HeldOverrides, DistinctKeys;
    var o, hit := HeldOverrides(sp, all), SentinelSent(sp, all);
    if members == [] {
      NoPairs();
      assert SetAll(o, members) == [];
      NoneInPlace(sp.members);
    } else {
      DistinctRest(members);
      HeldPairs(sp, all, members[1..]);
      InPlaceFirst(sp, members);
      OneMember(sp, all, members[0]);
      SetPairs(o, members);
      KeptFirst(sp, hit, members);
    }
  }

  lemma SetPairs(o: Overrides, members: seq<Member>)
    requires members != []
    ensures multiset(Pairs(SetAll(o, members)))
            == multiset(Pairs([SetMember(o, members[0])])) + multiset(Pairs(SetAll(o, members[1..])))
  {
    hide Pairs, SetMember;
    assert SetAll(o, members) == [SetMember(o, members[0])] + SetAll(o, members[1..]);
    PairsSum([SetMember(o, members[0])], SetAll(o, members[1..]));
  }

  lemma KeptFirst(sp: Splice, hit: bool, members: seq<Member>)
    requires members != []
    ensures multiset(KeptPairs(sp, hit, members))
            == multiset(if Drops(sp, members[0]) then [] else Pairs([Kept(sp, hit, members[0])])) +
               multiset(KeptPairs(sp, hit, members[1..]))
  {
    hide Pairs, Kept, Drops;
  }

  lemma NoneInPlace(ms: MemberSplice)
    ensures InPlace(ms, []) == multiset{}
  {}

  lemma DistinctRest(members: seq<Member>)
    requires members != [] && DistinctKeys(members)
    ensures DistinctKeys(members[1..])
  {}

  // ---------------------------------------------------------------- what the tree takes

  lemma {:induction false} ModelNamed(members: seq<Member>)
    ensures ModelOf(members).Some? ==> Named(members, "model")
    decreases |members|
  {
    if members != [] {
      ModelNamed(members[1..]);
      NamedFirst(members, "model");
    }
  }

  /** A member the overrides set is the model, and the sentinel, or one the mask names, and a string. */
  lemma {:induction false} ModelIs(members: seq<Member>, k: nat)
    requires k < |members| && members[k].key == "model" && DistinctKeys(members)
    ensures ModelOf(members) == Some(members[k].value)
    decreases |members|
  {
    if k > 0 {
      DistinctRest(members);
      ModelIs(members[1..], k - 1);
    }
  }

  /** Of an object with distinct keys that the scan takes, the tree takes every override. */
  lemma NotRefused(cfg: Config, sp: Splice, v: Value)
    requires v.Obj? && Fits(cfg, v) && sp.members.Mask() <= cfg.mask && DistinctKeys(v.members)
    ensures !Refuses(HeldOverrides(sp, v.members), v.members)
  {
    hide ModelOf, Depth, Absent, FieldKey, KeyFits, KeysFit, Earlier;
    var o, ms := HeldOverrides(sp, v.members), v.members;
    ModelNamed(ms);
    forall k | 0 <= k < |ms| ensures (o.For(ms[k].key) != "" ==> ms[k].value.Str?) && '\\' !in ms[k].key {
      assert MemberFits(cfg, ms, k);
      if ms[k].key == "model" { ModelIs(ms, k); }
      forall f: Field { KeyField(f, ms[k].key); }
    }
  }

  lemma SamePairs(cfg: Config, sp: Splice, d: Doc)
    requires d.value.Obj? && DistinctKeys(d.value.members) && (sp.model.replacement != "" || sp.model.sentinel == "")
    ensures multiset(Pairs(SplicedDoc(sp, d).value.members))
            == multiset(Pairs(HeldMembers(HeldOverrides(sp, d.value.members), d.value)))
  {
    hide Pairs, KeptPairs, HeldOverrides, SentinelSent, DistinctKeys, InPlace, Absent, OutMembers, SetAll;
    var o, ms, hit := HeldOverrides(sp, d.value.members), d.value.members, SentinelSent(sp, d.value.members);
    OutPairs(sp, hit, d.value);
    HeldPairs(sp, ms, ms);
    PolicySplit(sp, ms);
    var ins := Absent(o, ms);
    if ins == [] {
      NoPairs();
    } else if ms == [] {
      PaddedPairs(ins, d.value.gap);
      NoneSet(o);
      NoPairs();
    } else {
      PairsSum(ins, SetAll(o, ms));
    }
  }

  lemma NoneSet(o: Overrides)
    ensures SetAll(o, []) == []
  {}

  /** What the policy sets is inserted or set in place. */
  lemma PolicySplit(sp: Splice, members: seq<Member>)
    ensures multiset(Pairs(sp.members.Members()))
            == multiset(Pairs(Absent(HeldOverrides(sp, members), members))) + InPlace(sp.members, members)
  {
    hide Pairs, Named, Absent, SentinelSent, Set;
    PolicyPairs(sp.members);
    AbsentPairs(HeldOverrides(sp, members), members);
  }

  // ---------------------------------------------------------------- nothing to override

  lemma {:induction false} AllKept(sp: Splice, members: seq<Member>)
    requires sp.members.Mask() == {}
    ensures KeptPairs(sp, false, members) == Pairs(members)
    decreases |members|
  {
    hide Pairs;
    if members == [] {
      NoPairs();
    } else {
      AllKept(sp, members[1..]);
      assert members == [members[0]] + members[1..];
      PairsSum([members[0]], members[1..]);
    }
  }

  /** Without overrides the stream sends the client's pairs. */
  lemma SameUntouched(sp: Splice, d: Doc)
    requires d.value.Obj? && HeldOverrides(sp, d.value.members).Empty()
    requires sp.model.replacement != "" || sp.model.sentinel == ""
    ensures Pairs(SplicedDoc(sp, d).value.members) == Pairs(d.value.members)
  {
    hide Pairs, KeptPairs, OutMembers, ModelOf;
    NoPairs();
    OutPairs(sp, false, d.value);
    AllKept(sp, d.value.members);
  }

  // ---------------------------------------------------------------- what is written is JSON

  lemma AbsentOk(o: Overrides, members: seq<Member>)
    requires AllClean(o)
    ensures AllOk(Absent(o, members))
  {
    hide MemberOk, Named;
    PolicyOneOk(o.members, ServiceTier);
    PolicyOneOk(o.members, Speed);
    PolicyOneOk(o.members, InferenceGeo);
  }

  lemma SetAllOk(o: Overrides, members: seq<Member>)
    requires AllClean(o) && AllOk(members)
    ensures AllOk(SetAll(o, members))
  {
    hide StringBody, FieldOf;
    AsIsBody(o.model);
    AsIsBody(o.members.serviceTier);
    AsIsBody(o.members.speed);
    AsIsBody(o.members.inferenceGeo);
    forall k | 0 <= k < |members| ensures MemberOk(SetMember(o, members[k])) { assert members[k] in members; }
  }

  lemma HeldOk(o: Overrides, d: Doc)
    requires DocOk(d) && d.value.Obj? && AllClean(o)
    ensures DocOk(HeldDoc(o, d))
  {
    hide AllClean, Absent, SetAll, MemberOk, Padded;
    var ms, ins := d.value.members, Absent(o, d.value.members);
    assert AllOk(ms);
    AbsentOk(o, ms);
    SetAllOk(o, ms);
    if ins != [] && ms == [] { PaddedOk(ins, d.value.gap); }
  }

  // ---------------------------------------------------------------- the overrides by name

  /** The value a member of the client's is written with. */
  function NewValue(o: Overrides, m: Member): Value {
    if m.key == "model" && o.model != "" then Str(o.model)
    else if m.key == "service_tier" && o.members.serviceTier != "" then Str(o.members.serviceTier)
    else if m.key == "speed" && o.members.speed != "" then Str(o.members.speed)
    else if m.key == "inference_geo" && o.members.inferenceGeo != "" then Str(o.members.inferenceGeo)
    else m.value
  }

  function Rewritten(o: Overrides, members: seq<Member>): seq<(string, Value)>
    decreases |members|
  {
    if members == [] then [] else [(members[0].key, NewValue(o, members[0]))] + Rewritten(o, members[1..])
  }

  function GivenUnless(named: bool, key: string, value: string): seq<(string, Value)> { if named then [] else Given(key, value) }

  /** What is set and the client did not send. */
  function Inserted(o: Overrides, members: seq<Member>): seq<(string, Value)> {
    GivenUnless(Named(members, "service_tier"), "service_tier", o.members.serviceTier) +
    GivenUnless(Named(members, "speed"), "speed", o.members.speed) +
    GivenUnless(Named(members, "inference_geo"), "inference_geo", o.members.inferenceGeo)
  }

  lemma NewValueIs(o: Overrides, m: Member)
    ensures SetMember(o, m).key == m.key && SetMember(o, m).value == NewValue(o, m)
  {
    FieldNamesApart();
    NamesApart();
  }

  lemma {:induction false} RewrittenIs(o: Overrides, members: seq<Member>)
    ensures Pairs(SetAll(o, members)) == Rewritten(o, members)
    decreases |members|
  {
    hide SetMember, NewValue;
    if members == [] {
      assert SetAll(o, members) == [];
    } else {
      var m := SetMember(o, members[0]);
      RewrittenIs(o, members[1..]);
      NewValueIs(o, members[0]);
      assert SetAll(o, members) == [m] + SetAll(o, members[1..]);
      PairsSum([m], SetAll(o, members[1..]));
      assert Pairs([m]) == [(m.key, m.value)];
    }
  }

  lemma InsertedIs(o: Overrides, members: seq<Member>)
    ensures Pairs(Absent(o, members)) == Inserted(o, members)
  {
    hide Pairs, Named, FieldKey;
    InsertedOne(o, members, ServiceTier);
    InsertedOne(o, members, Speed);
    InsertedOne(o, members, InferenceGeo);
    PairsSum(AbsentOf(o, members, ServiceTier), AbsentOf(o, members, Speed));
    PairsSum(AbsentOf(o, members, ServiceTier) + AbsentOf(o, members, Speed), AbsentOf(o, members, InferenceGeo));
    FieldKeys();
  }

  lemma FieldKeys()
    ensures FieldKey(ServiceTier) == "service_tier" && FieldKey(Speed) == "speed" && FieldKey(InferenceGeo) == "inference_geo"
  {}

  lemma InsertedOne(o: Overrides, members: seq<Member>, f: Field)
    ensures Pairs(AbsentOf(o, members, f)) == GivenUnless(Named(members, FieldKey(f)), FieldKey(f), o.members.Of(f))
  {
    hide Named, FieldKey;
    GivenIs(o.members, f);
    NoPairs();
  }

  /** Whatever the overrides: the members set and not sent, then the client's in order, each with the
      value set for it or its own. */
  lemma HeldReads(o: Overrides, v: Value)
    requires v.Obj?
    ensures Pairs(HeldMembers(o, v)) == Inserted(o, v.members) + Rewritten(o, v.members)
  {
    hide Pairs, Absent, SetAll, Inserted, Padded;
    var ins := Absent(o, v.members);
    RewrittenIs(o, v.members);
    InsertedIs(o, v.members);
    if ins == [] {
      NoPairs();
    } else if v.members == [] {
      PaddedPairs(ins, v.gap);
    } else {
      PairsSum(ins, SetAll(o, v.members));
    }
  }

  /** The key is one the overrides set. */
  predicate SetsKey(o: Overrides, key: string) {
    || (key == "model" && o.model != "")
    || GivesWay(o.members, key)
  }

  /** Refused: a model set and not sent, a member set that is no string, or an insertion beside a key
      written with an escape. */
  lemma RefusedWhen(o: Overrides, members: seq<Member>)
    ensures Refuses(o, members) <==>
            || (o.model != "" && !Named(members, "model"))
            || (exists m <- members :: SetsKey(o, m.key) && !m.value.Str?)
            || (Inserted(o, members) != [] && exists m <- members :: '\\' in m.key)
  {
    hide Named, Absent, Inserted, SetsKey, FieldOf;
    InsertedIs(o, members);
    forall m: Member ensures o.For(m.key) != "" <==> SetsKey(o, m.key) { SetsIs(o, m.key); }
    if exists m <- members :: '\\' in m.key {
      var m :| m in members && '\\' in m.key;
      var k :| 0 <= k < |members| && members[k] == m;
      assert '\\' in members[k].key;
    }
  }

  lemma SetsIs(o: Overrides, key: string)
    ensures o.For(key) != "" <==> SetsKey(o, key)
  {
    FieldNamesApart();
    NamesApart();
  }

  // ---------------------------------------------------------------- the two rewrites

  /** For every object the scan takes and every parse of it: the held rewrite is done exactly when the
      values are clean, the body is within the parser's limit and no object in it, at any depth, names
      a key twice. Without overrides it is always done. */
  lemma HeldTakes(cfg: Config, sp: Splice, d: Doc, parsed: Option<Doc>)
    requires DocOk(d) && d.value.Obj? && Done(Verdict(cfg, DocText(d))) && Suits(cfg, sp) && Parsed(DocText(d), parsed)
    ensures var o := HeldOverrides(sp, d.value.members);
            && (HeldBody(DocText(d), parsed, o).Some? <==> o.Empty() || (AllClean(o) && Parseable(d.value)))
            && (HeldBody(DocText(d), parsed, o).Some? && !o.Empty() ==> parsed == Some(d) && DistinctKeys(d.value.members))
  {
    hide HeldOverrides, Refuses, Fits, Verdict, DocText, DocOk, HeldDoc, Parsed, AllClean, Depth, DistinctKeys, Nodes;
    DoneFits(cfg, d);
    ParsedIs(d, parsed);
    FitsDepth(cfg, d.value);
    if Parseable(d.value) {
      KeysDistinct(d.value.members);
      NotRefused(cfg, sp, d.value);
    }
  }

  lemma FitsDepth(cfg: Config, v: Value)
    requires Fits(cfg, v)
    ensures Depth(v) <= MAX_DEPTH
  {}

  /** What the held rewrite writes of the object of a tree. */
  function HeldTree(o: Overrides, d: Doc): Doc
    requires d.value.Obj?
  {
    if o.Empty() then d else HeldDoc(o, d)
  }

  /** Whenever it is done, it returns the text of one JSON object whose keys and values are, as a
      multiset, those of what the stream sends. */
  lemma StreamAgreesWithHeld(cfg: Config, sp: Splice, d: Doc, parsed: Option<Doc>)
    requires DocOk(d) && d.value.Obj? && Done(Verdict(cfg, DocText(d))) && Suits(cfg, sp) && Parsed(DocText(d), parsed)
    requires sp.model.replacement != "" || sp.model.sentinel == ""
    requires HeldBody(DocText(d), parsed, HeldOverrides(sp, d.value.members)).Some?
    ensures var o := HeldOverrides(sp, d.value.members);
            var sent, held := SplicedDoc(sp, d), HeldTree(o, d);
            && HeldBody(DocText(d), parsed, o) == Some(DocText(held)) && DocOk(held) && held.value.Obj?
            && Whole(cfg, sp, DocText(d)) == DocText(sent) && sent.value.Obj?
            && multiset(Pairs(sent.value.members)) == multiset(Pairs(held.value.members))
               == multiset(Policy(sp.members) + Clients(sp, SentinelSent(sp, d.value.members), d.value.members))
  {
    hide Policy, Clients, KeptPairs, Pairs, HeldOverrides, Refuses, Verdict, DocText, OutMembers, HeldMembers, Whole, DocOk, SentinelSent, Parsed, AllClean, DistinctKeys, Parseable;
    var o := HeldOverrides(sp, d.value.members);
    HeldTakes(cfg, sp, d, parsed);
    WholeText(cfg, sp, d);
    var hit := SentinelSent(sp, d.value.members);
    OutPairs(sp, hit, d.value);
    PolicyIs(sp.members);
    ClientsAre(sp, hit, d.value.members);
    if o.Empty() {
      SameUntouched(sp, d);
    } else {
      HeldOk(o, d);
      SamePairs(cfg, sp, d);
    }
  }

  // ---------------------------------------------------------------- a body the held rewrite refuses

  function Plainly(key: string, v: Value): Member { Member("", key, "", "", v, "") }

  const ONE := Num(Number(false, "1", "", "", ""))
  const TWO := Num(Number(false, "2", "", "", ""))

  function TwoKeys(a: string, b: string): Value { Obj("", [Plainly(a, ONE), Plainly(b, TWO)]) }

  /** `{"model":"m","x":{"k":1,"k":2}}`, the two keys written in any way */
  function NestedTwo(a: string, b: string): Doc {
    Doc("", Obj("", [Plainly("model", Str("m")), Plainly("x", TwoKeys(a, b))]), "")
  }

  const FAST := Splice(ModelSplice("", ""), MemberSplice("", "fast", ""))

  const TRACKS_SPEED := Config(true, false, {Speed})

  /** The scan takes a key repeated below the root, and the stream rewrites it; the held rewrite refuses
      exactly if the two keys spell one text, as `k` and `\u006b` do. */
  lemma NestedRepeat(a: seq<nat>, s: seq<Style>, b: seq<nat>, t: seq<Style>, parsed: Option<Doc>)
    requires AllHave(a, s) && AllHave(b, t)
    requires Parsed(DocText(NestedTwo(Written(a, s), Written(b, t))), parsed)
    ensures var d := NestedTwo(Written(a, s), Written(b, t));
            var o := HeldOverrides(FAST, d.value.members);
            && DocOk(d) && Done(Verdict(TRACKS_SPEED, DocText(d))) && Suits(TRACKS_SPEED, FAST)
            && AllClean(o) && !o.Empty() && (HeldBody(DocText(d), parsed, o).None? <==> a == b)
  {
    hide Verdict, DocText, Parsed, HeldBody, Written, AllHave, NestedTwo, Parseable, HeldOverrides;
    var x, y := Written(a, s), Written(b, t);
    var d := NestedTwo(x, y);
    SpellingBody(a, s);
    SpellingBody(b, t);
    TwoOk(x, y);
    TwoFit(x, y);
    SameReading(a, s, b, t);
    TwoParse(x, y);
    PolicyFast(d.value.members);
    assert Acceptable(TRACKS_SPEED, DocText(d));
    DoneExactly(TRACKS_SPEED, DocText(d));
    HeldTakes(TRACKS_SPEED, FAST, d, parsed);
  }

  lemma PolicyFast(members: seq<Member>)
    ensures var o := HeldOverrides(FAST, members); AllClean(o) && !o.Empty() && Suits(TRACKS_SPEED, FAST)
  {}

  lemma PlainlyOk(key: string, v: Value)
    requires StringBody(key) && ValueOk(v)
    ensures MemberOk(Plainly(key, v))
  {}

  lemma TwoOk(x: string, y: string)
    requires StringBody(x) && StringBody(y)
    ensures DocOk(NestedTwo(x, y)) && NestedTwo(x, y).value.Obj?
  {
    hide MemberOk, Plainly;
    assert NumberOk(ONE.number) && NumberOk(TWO.number);
    PlainlyOk(x, ONE);
    PlainlyOk(y, TWO);
    assert ValueOk(TwoKeys(x, y));
    AsIsBody("x");
    AsIsBody("model");
    AsIsBody("m");
    PlainlyOk("x", TwoKeys(x, y));
    PlainlyOk("model", Str("m"));
  }

  lemma TwoFit(x: string, y: string)
    ensures Fits(TRACKS_SPEED, NestedTwo(x, y).value)
  {
    var v := NestedTwo(x, y).value;
    var ms := v.members;
    TwoDeep(Plainly(x, ONE), Plainly(y, TWO));
    TwoDeep(ms[0], ms[1]);
    assert Depth(TwoKeys(x, y)) == 1 + MembersDepth(TwoKeys(x, y).members);
    assert Depth(v) == 1 + MembersDepth(ms);
    assert "model"[0] == 'm' && "x"[0] == 'x' && "speed"[0] == 's' && "stream_options"[0] == 's';
    forall j: nat | j < |ms| ensures MemberFits(TRACKS_SPEED, ms, j) { assert j == 0 || j == 1; }
  }

  lemma TwoDeep(a: Member, b: Member)
    ensures MembersDepth([a, b]) == Max(Depth(a.value), Depth(b.value))
    ensures MemberNodes([a, b]) == Nodes(a.value) + Nodes(b.value)
  {
    hide Depth, Nodes;
    assert [a, b][1..] == [b] && [b][1..] == [];
    assert MembersDepth([b]) == Max(Depth(b.value), MembersDepth([]));
    assert MemberNodes([b]) == Nodes(b.value) + MemberNodes([]);
  }

  lemma TwoParse(x: string, y: string)
    ensures Parseable(NestedTwo(x, y).value) <==> Unescaped(x) != Unescaped(y)
  {
    hide Unescaped;
    var v, inner := NestedTwo(x, y).value, TwoKeys(x, y);
    var ms, ks := v.members, inner.members;
    TwoDeep(ks[0], ks[1]);
    TwoDeep(ms[0], ms[1]);
    assert Nodes(inner) == 1 + MemberNodes(ks) && Nodes(v) == 1 + MemberNodes(ms);
    TwoApart(ks[0], ks[1]);
    TwoApart(ms[0], ms[1]);
    assert KeysApart(ONE) && KeysApart(TWO) && KeysApart(ms[0].value);
    RootTwo();
    assert forall m <- ks :: m == ks[0] || m == ks[1];
    assert forall m <- ms :: m == ms[0] || m == ms[1];
    assert ks[0] in ks && ms[1] in ms;
    assert KeysApart(inner) <==> UniqueKeys(KeysOf(ks));
    assert KeysApart(v) <==> UniqueKeys(KeysOf(ms)) && KeysApart(inner);
  }

  lemma RootTwo()
    ensures Unescaped("model") != Unescaped("x")
  {
    PlainReads("model");
    PlainReads("x");
    assert "model"[0] == 'm' && "x"[0] == 'x';
  }

  lemma TwoApart(a: Member, b: Member)
    ensures UniqueKeys(KeysOf([a, b])) <==> Unescaped(a.key) != Unescaped(b.key)
  {
    hide Unescaped;
    var r := Read(KeysOf([a, b]));
    assert |r| == 2 && r[0] == Unescaped(a.key) && r[1] == Unescaped(b.key);
  }
}
