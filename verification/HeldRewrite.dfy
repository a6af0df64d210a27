/** `apply_overrides` (provider/src/translate_body.cpp): the rewrite of a body held whole. Edits
    are gathered from what the parser found, sorted by offset and applied in one copy.
 */
module HeldRewrite {
  import opened Json
  import opened Options
  import opened Automaton
  import opened Splicing
  import opened SpanPlaces
  import opened SpliceAppend
  import opened SplicePieces
  import opened SpliceTree
  import opened Sorting

  /** Empty: not set. */
  datatype Overrides = Overrides(model: string, members: MemberSplice) {
    predicate Empty() { model == "" && members.Mask() == {} }

    /** The value a member of this key is given. */
    function For(key: string): string {
      if key == "model" then model
      else if FieldOf(key).Some? then members.Of(FieldOf(key).value) else ""
    }
  }

  /** No control byte, DEL, quote or backslash. */
  predicate Clean(s: string) { forall k | 0 <= k < |s| :: Plain(s[k]) && s[k] as int != 0x7F }

  predicate AllClean(o: Overrides) {
    Clean(o.model) && Clean(o.members.serviceTier) && Clean(o.members.speed) && Clean(o.members.inferenceGeo)
  }

  // ---------------------------------------------------------------- the tree written

  predicate Named(members: seq<Member>, key: string) { exists k | 0 <= k < |members| :: members[k].key == key }

  /** A member the overrides set is a string. */
  predicate Settable(o: Overrides, members: seq<Member>) {
    forall k | 0 <= k < |members| :: o.For(members[k].key) != "" ==> members[k].value.Str?
  }

  predicate Escaped(members: seq<Member>) { exists k | 0 <= k < |members| :: '\\' in members[k].key }

  /** The member inserted for a field set and absent. */
  function AbsentOf(o: Overrides, members: seq<Member>, f: Field): seq<Member> {
    if Named(members, FieldKey(f)) then [] else o.members.MemberOf(f)
  }

  function Absent(o: Overrides, members: seq<Member>): seq<Member> {
    AbsentOf(o, members, ServiceTier) + AbsentOf(o, members, Speed) + AbsentOf(o, members, InferenceGeo)
  }

  /** What the rewrite refuses of an object whose keys are distinct. */
  predicate Refuses(o: Overrides, members: seq<Member>) {
    || (o.model != "" && !Named(members, "model"))
    || !Settable(o, members)
    || (Absent(o, members) != [] && Escaped(members))
  }

  function SetMember(o: Overrides, m: Member): Member {
    if o.For(m.key) == "" then m else m.(value := Str(o.For(m.key)))
  }

  function SetAll(o: Overrides, members: seq<Member>): (r: seq<Member>)
    ensures |r| == |members|
  {
    seq(|members|, i requires 0 <= i < |members| => SetMember(o, members[i]))
  }

  function HeldMembers(o: Overrides, v: Value): seq<Member>
    requires v.Obj?
  {
    var ins := Absent(o, v.members);
    if ins == [] then SetAll(o, v.members)
    else if v.members == [] then Padded(ins, v.gap)
    else ins + SetAll(o, v.members)
  }

  function HeldDoc(o: Overrides, d: Doc): Doc
    requires d.value.Obj?
  {
    d.(value := Braces(d.value.gap, HeldMembers(o, d.value)))
  }

  predicate DistinctKeys(members: seq<Member>) {
    forall i, j | 0 <= i < j < |members| :: members[i].key != members[j].key
  }

  // ---------------------------------------------------------------- edits

  /** [at, at + drop) of the body replaced by `text`. */
  datatype Edit = Edit(at: nat, drop: nat, text: string)

  const EditAt: Edit -> nat := (e: Edit) => e.at

  /** Edits in ascending order applied from `cursor` on. */
  function Applied(body: string, cursor: nat, edits: seq<Edit>): string
    decreases |edits|
  {
    if edits == [] then (if cursor <= |body| then body[cursor..] else "")
    else
      var e := edits[0];
      (if cursor <= e.at <= |body| then body[cursor..e.at] else "") + e.text + Applied(body, e.at + e.drop, edits[1..])
  }

  /** Where the k-th member's text begins. */
  function MemberAt(open: nat, members: seq<Member>, k: nat): nat
    requires k <= |members|
  {
    if k == 0 then open else Next(MemberAt(open, members, k - 1), members[k - 1]) + 1
  }

  predicate Edited(o: Overrides, members: seq<Member>, k: nat)
    requires k < |members|
  {
    o.For(members[k].key) != "" && members[k].value.Str?
  }

  /** The edit of the k-th member: its string's contents, as the parser's view gives them. */
  function EditOf(o: Overrides, open: nat, members: seq<Member>, k: nat): Edit
    requires k < |members| && members[k].value.Str?
  {
    Edit(ValueAt(MemberAt(open, members, k), members[k]) + 1, |members[k].value.raw|, o.For(members[k].key))
  }

  /** The edits of the members from the k-th on, in order. */
  function EditsFrom(o: Overrides, open: nat, members: seq<Member>, k: nat): seq<Edit>
    requires k <= |members|
    decreases |members| - k
  {
    if k == |members| then []
    else (if Edited(o, members, k) then [EditOf(o, open, members, k)] else []) + EditsFrom(o, open, members, k + 1)
  }

  lemma EditPlace(o: Overrides, open: nat, members: seq<Member>, k: nat)
    requires k < |members| && members[k].value.Str?
    ensures var e := EditOf(o, open, members, k);
            && MemberAt(open, members, k) < e.at
            && e.at + e.drop + 1 + |members[k].post| + 1 == MemberAt(open, members, k + 1)
  {
    hide MemberHead;
    NextIs(MemberAt(open, members, k), members[k]);
  }

  lemma {:induction false} EditsPlaced(o: Overrides, open: nat, members: seq<Member>, k: nat)
    requires k <= |members|
    ensures forall e <- EditsFrom(o, open, members, k) :: e.at > MemberAt(open, members, k)
    ensures Ascending(EditsFrom(o, open, members, k), EditAt)
    decreases |members| - k
  {
    hide MemberAt, EditOf, Next;
    if k < |members| {
      EditsPlaced(o, open, members, k + 1);
      AtGrows(open, members, k);
      if Edited(o, members, k) { EditPlace(o, open, members, k); }
    }
  }

  lemma AtGrows(open: nat, members: seq<Member>, k: nat)
    requires k < |members|
    ensures MemberAt(open, members, k) < MemberAt(open, members, k + 1)
  {}

  lemma {:induction false} EditsAre(o: Overrides, open: nat, members: seq<Member>, k: nat)
    requires k <= |members|
    ensures forall e :: e in EditsFrom(o, open, members, k) <==> IsEdit(o, open, members, k, e)
    decreases |members| - k
  {
    hide EditOf, Edited;
    if k < |members| {
      EditsAre(o, open, members, k + 1);
      forall e ensures e in EditsFrom(o, open, members, k) <==> IsEdit(o, open, members, k, e) {
        assert IsEdit(o, open, members, k, e) <==>
               IsEdit(o, open, members, k + 1, e) || (Edited(o, members, k) && EditIs(o, open, members, k, e));
      }
    }
  }

  /** `e` edits the k-th member. */
  ghost predicate EditIs(o: Overrides, open: nat, members: seq<Member>, k: nat, e: Edit)
    requires k < |members|
  {
    Edited(o, members, k) && e == EditOf(o, open, members, k)
  }

  ghost predicate IsEdit(o: Overrides, open: nat, members: seq<Member>, k: nat, e: Edit)
    requires k <= |members|
  {
    exists j: nat | k <= j < |members| :: EditIs(o, open, members, j, e)
  }

  // ---------------------------------------------------------------- applying them writes the members set

  /** Bytes before the next edit are copied. */
  lemma AppliedSkip(body: string, cursor: nat, next: nat, edits: seq<Edit>)
    requires cursor <= next <= |body|
    requires edits != [] ==> next <= edits[0].at <= |body|
    ensures Applied(body, cursor, edits) == body[cursor..next] + Applied(body, next, edits)
  {
    hide Applied;
    if edits == [] {
      AppliedNone(body, cursor);
      AppliedNone(body, next);
      SliceJoin(body, cursor, next, |body|);
    } else {
      var e := edits[0];
      AppliedFirst(body, cursor, edits);
      AppliedFirst(body, next, edits);
      SliceJoin(body, cursor, next, e.at);
      SkipJoin(body[cursor..next], body[next..e.at], e.text, Applied(body, e.at + e.drop, edits[1..]));
    }
  }

  lemma AppliedNone(body: string, cursor: nat)
    requires cursor <= |body|
    ensures Applied(body, cursor, []) == body[cursor..|body|]
  {
    assert body[cursor..] == body[cursor..|body|];
  }

  lemma AppliedFirst(body: string, cursor: nat, edits: seq<Edit>)
    requires edits != [] && cursor <= edits[0].at <= |body|
    ensures Applied(body, cursor, edits)
            == body[cursor..edits[0].at] + edits[0].text + Applied(body, edits[0].at + edits[0].drop, edits[1..])
  {}

  lemma SliceJoin(body: string, a: nat, b: nat, c: nat)
    requires a <= b <= c <= |body|
    ensures body[a..c] == body[a..b] + body[b..c]
  {}

  lemma SkipJoin(a: string, b: string, c: string, d: string)
    ensures (a + b) + c + d == a + (b + c + d)
  {}

  /** The rest's first edit, if any, is past the separator after the k-th member. */
  lemma RestPast(o: Overrides, open: nat, members: seq<Member>, k: nat, n: nat)
    requires k <= |members| && MemberAt(open, members, |members|) <= n
    ensures var es := EditsFrom(o, open, members, k); es != [] ==> MemberAt(open, members, k) <= es[0].at <= n
  {
    hide MemberAt, EditOf, Edited;
    EditsPlaced(o, open, members, k);
    var es := EditsFrom(o, open, members, k);
    if es != [] {
      EditsAre(o, open, members, k);
      assert es[0] in es;
      var j: nat :| k <= j < |members| && EditIs(o, open, members, j, es[0]);
      EditBefore(o, open, members, j);
    }
  }

  lemma EditBefore(o: Overrides, open: nat, members: seq<Member>, j: nat)
    requires j < |members| && Edited(o, members, j)
    ensures EditOf(o, open, members, j).at <= MemberAt(open, members, |members|)
  {
    hide MemberAt, EditOf;
    EditPlace(o, open, members, j);
    AtMonotone(open, members, j + 1, |members|);
  }

  lemma {:induction false} AtMonotone(open: nat, members: seq<Member>, i: nat, j: nat)
    requires i <= j <= |members|
    ensures MemberAt(open, members, i) <= MemberAt(open, members, j)
    decreases j
  {
    if i < j { AtMonotone(open, members, i, j - 1); }
  }

  lemma StrParts(m: Member, text: string)
    requires m.value.Str?
    ensures MemberText(m) == (MemberHead(m) + "\"") + (m.value.raw + ("\"" + m.post))
    ensures MemberText(m.(value := Str(text))) == (MemberHead(m) + "\"") + (text + ("\"" + m.post))
  {
    HeadAlone(m, Str(text), m.post);
    assert Text(m.value) == "\"" + m.value.raw + "\"";
    assert Text(Str(text)) == "\"" + text + "\"";
  }

  lemma Joins(s: string, head: string, text: string, post: string, rest: string)
    ensures s + head + text + (post + rest) == s + (head + (text + post)) + rest
  {}

  /** One member, and the separator before it. */
  lemma AppliedMember(o: Overrides, body: string, open: nat, members: seq<Member>, k: nat, sep: nat, s: string)
    requires k < |members| && Settable(o, members) && sep + |s| == MemberAt(open, members, k)
    requires MemberAt(open, members, |members|) <= |body|
    requires Next(MemberAt(open, members, k), members[k]) <= |body|
    requires body[sep..Next(MemberAt(open, members, k), members[k])] == s + MemberText(members[k])
    ensures Applied(body, sep, EditsFrom(o, open, members, k))
            == s + MemberText(SetMember(o, members[k])) +
               Applied(body, Next(MemberAt(open, members, k), members[k]), EditsFrom(o, open, members, k + 1))
  {
    hide MemberAt, MemberText, MemberHead, Text, Applied, EditsFrom;
    var m, at, next := members[k], MemberAt(open, members, k), Next(MemberAt(open, members, k), members[k]);
    var rest := EditsFrom(o, open, members, k + 1);
    RestPast(o, open, members, k + 1, |body|);
    AtNext(open, members, k);
    EditsFirst(o, open, members, k);
    if o.For(m.key) == "" {
      assert [] + rest == rest;
      AppliedSkip(body, sep, next, rest);
    } else {
      var e := EditOf(o, open, members, k);
      EditPlace(o, open, members, k);
      StrParts(m, e.text);
      AppliedOne(body, sep, e, rest);
      EditSlices(body, sep, s, MemberHead(m) + "\"", m.value.raw, "\"" + m.post);
      AppliedSkip(body, e.at + e.drop, next, rest);
      Joins(s, MemberHead(m) + "\"", e.text, "\"" + m.post, Applied(body, next, rest));
    }
  }

  lemma EditSlices(body: string, sep: nat, s: string, head: string, raw: string, post: string)
    requires sep + |s| + |head| + |raw| + |post| <= |body|
    requires body[sep..sep + |s| + |head| + |raw| + |post|] == s + (head + (raw + post))
    ensures body[sep..sep + |s| + |head|] == s + head
    ensures body[sep + |s| + |head| + |raw|..sep + |s| + |head| + |raw| + |post|] == post
  {
    assert s + (head + (raw + post)) == (s + head) + (raw + post);
    Slices(body, sep, s + head, raw + post);
    Slices(body, sep + |s| + |head|, raw, post);
  }

  lemma AtNext(open: nat, members: seq<Member>, k: nat)
    requires k < |members|
    ensures MemberAt(open, members, k + 1) == Next(MemberAt(open, members, k), members[k]) + 1
  {}

  lemma EditsFirst(o: Overrides, open: nat, members: seq<Member>, k: nat)
    requires k < |members|
    ensures EditsFrom(o, open, members, k)
            == (if Edited(o, members, k) then [EditOf(o, open, members, k)] else []) + EditsFrom(o, open, members, k + 1)
  {}

  lemma AppliedOne(body: string, cursor: nat, e: Edit, rest: seq<Edit>)
    requires cursor <= e.at <= |body|
    ensures Applied(body, cursor, [e] + rest) == body[cursor..e.at] + e.text + Applied(body, e.at + e.drop, rest)
  {
    assert ([e] + rest)[1..] == rest;
  }

  lemma SetAllRest(o: Overrides, members: seq<Member>, k: nat)
    requires k < |members|
    ensures SetAll(o, members)[k..] == [SetMember(o, members[k])] + SetAll(o, members)[k + 1..]
  {}

  /** From the separator before the k-th member to the end. */
  lemma {:induction false} AppliedRest(o: Overrides, body: string, open: nat, members: seq<Member>, k: nat, close: nat)
    requires 1 <= k <= |members| && Settable(o, members) && MemberAt(open, members, |members|) == close + 1 <= |body|
    requires var sep := MemberAt(open, members, k) - 1;
             sep + |Commas(members[k..])| == close && body[sep..close] == Commas(members[k..])
    ensures Applied(body, MemberAt(open, members, k) - 1, EditsFrom(o, open, members, k))
            == Commas(SetAll(o, members)[k..]) + body[close..]
    decreases |members| - k
  {
    hide MemberAt, MemberText, SetMember, Next, SetAll, Settable, EditOf, Edited;
    AtNext(open, members, k - 1);
    var sep, done := MemberAt(open, members, k) - 1, SetAll(o, members);
    if k == |members| {
      assert done[k..] == [];
      assert Applied(body, sep, []) == body[sep..];
    } else {
      var m, next := members[k], Next(MemberAt(open, members, k), members[k]);
      CommasFirst(members, k);
      assert Next(MemberAt(open, members, k), m) == MemberAt(open, members, k) + |MemberText(m)| by { NextAt(MemberAt(open, members, k), m); }
      AtNext(open, members, k);
      Slices(body, sep, "," + MemberText(m), Commas(members[k + 1..]));
      AppliedMember(o, body, open, members, k, sep, ",");
      AppliedRest(o, body, open, members, k + 1, close);
      SetAllRest(o, members, k);
      RestText(SetMember(o, m), done[k + 1..]);
      RestJoin("," + MemberText(SetMember(o, m)), Commas(done[k + 1..]), body[close..]);
    }
  }

  lemma RestText(m: Member, rest: seq<Member>)
    ensures Commas([m] + rest) == "," + MemberText(m) + Commas(rest)
  {
    hide MemberText;
    assert ([m] + rest)[1..] == rest;
  }

  lemma RestJoin(a: string, b: string, c: string)
    ensures a + (b + c) == (a + b) + c
  {}

  lemma NextAt(at: nat, m: Member)
    ensures Next(at, m) == at + |MemberText(m)|
  {}

  lemma CommasFirst(members: seq<Member>, k: nat)
    requires k < |members|
    ensures Commas(members[k..]) == "," + MemberText(members[k]) + Commas(members[k + 1..])
  {
    hide MemberText;
    assert members[k..][1..] == members[k + 1..];
  }

  // ---------------------------------------------------------------- gathering the edits

  /** `Value::find`: the first member with this key. */
  method FindMember(members: seq<Member>, key: string) returns (k: Option<nat>)
    ensures k.None? <==> !Named(members, key)
    ensures k.Some? ==> k.value < |members| && members[k.value].key == key && !Named(members[..k.value], key)
  {
    for i := 0 to |members|
      invariant forall j | 0 <= j < i :: members[j].key != key
    {
      if members[i].key == key { return Some(i); }
    }
    return None;
  }

  /** `es` are the edits of the members whose keys are among `keys`, each once. */
  ghost predicate Covers(o: Overrides, open: nat, members: seq<Member>, keys: set<string>, es: seq<Edit>) {
    && (forall e :: e in es <==> exists j: nat | j < |members| && members[j].key in keys :: EditIs(o, open, members, j, e))
    && Distinct(es, EditAt)
  }

  lemma EditsApart(o: Overrides, open: nat, members: seq<Member>, i: nat, j: nat)
    requires i < j < |members| && Edited(o, members, i) && Edited(o, members, j)
    ensures EditOf(o, open, members, i).at < EditOf(o, open, members, j).at
  {
    hide MemberAt, EditOf;
    EditPlace(o, open, members, i);
    EditPlace(o, open, members, j);
    AtMonotone(open, members, i + 1, j);
  }

  lemma CoverOne(o: Overrides, open: nat, members: seq<Member>, keys: set<string>, es: seq<Edit>, k: nat)
    requires DistinctKeys(members) && Covers(o, open, members, keys, es)
    requires k < |members| && members[k].key !in keys && Edited(o, members, k)
    ensures Covers(o, open, members, keys + {members[k].key}, es + [EditOf(o, open, members, k)])
  {
    hide EditOf;
    var e, key, more := EditOf(o, open, members, k), members[k].key, es + [EditOf(o, open, members, k)];
    forall p | 0 <= p < |es| ensures EditAt(es[p]) != EditAt(e) {
      assert es[p] in es;
      var j: nat :| j < |members| && members[j].key in keys && EditIs(o, open, members, j, es[p]);
      if j < k { EditsApart(o, open, members, j, k); } else { EditsApart(o, open, members, k, j); }
    }
    forall x ensures x in more <==> exists j: nat | j < |members| && members[j].key in keys + {key} :: EditIs(o, open, members, j, x) {
      if x == e { assert EditIs(o, open, members, k, x); }
      if j: nat :| j < |members| && members[j].key in keys + {key} && EditIs(o, open, members, j, x) {
        if members[j].key == key { assert j == k; }
      }
    }
  }

  lemma CoverNone(o: Overrides, open: nat, members: seq<Member>, keys: set<string>, es: seq<Edit>, key: string)
    requires Covers(o, open, members, keys, es)
    requires o.For(key) == "" || !Named(members, key)
    ensures Covers(o, open, members, keys + {key}, es)
  {
    forall x, j: nat | j < |members| && members[j].key in keys + {key} && EditIs(o, open, members, j, x)
      ensures members[j].key in keys
    {}
  }

  const KEYS: seq<string> := ["model", "service_tier", "speed", "inference_geo"]

  function FirstKeys(k: nat): set<string>
    requires k <= 4
  {
    set i | 0 <= i < k :: KEYS[i]
  }

  lemma FirstKeysNext(k: nat)
    requires k < 4
    ensures KEYS[k] !in FirstKeys(k) && FirstKeys(k + 1) == FirstKeys(k) + {KEYS[k]}
  {
    assert KEYS[0][0] == 'm' && KEYS[1][1] == 'e' && KEYS[2][1] == 'p' && KEYS[3][0] == 'i';
  }

  lemma AllKeys(o: Overrides, key: string)
    requires o.For(key) != ""
    ensures key in FirstKeys(4)
  {
    assert KEYS[0] in FirstKeys(4) && KEYS[1] in FirstKeys(4) && KEYS[2] in FirstKeys(4) && KEYS[3] in FirstKeys(4);
  }

  /** All four keys covered, sorted, are the edits in order. */
  lemma CoveredSorted(o: Overrides, open: nat, members: seq<Member>, es: seq<Edit>, sorted: seq<Edit>)
    requires Covers(o, open, members, FirstKeys(4), es) && SameElements(sorted, es) && Ascending(sorted, EditAt)
    ensures sorted == EditsFrom(o, open, members, 0)
  {
    hide EditOf, EditsFrom, FirstKeys;
    EditsAre(o, open, members, 0);
    EditsPlaced(o, open, members, 0);
    var all := EditsFrom(o, open, members, 0);
    forall e ensures e in sorted <==> e in all {
      if e in all {
        var j: nat :| j < |members| && EditIs(o, open, members, j, e);
        AllKeys(o, members[j].key);
      }
    }
    SameAscending(sorted, all, EditAt);
  }

  /** What is inserted once the first `k` keys were looked up. */
  function AbsentUpTo(o: Overrides, members: seq<Member>, k: nat): seq<Member>
    requires k <= 4
  {
    if k <= 1 then []
    else if k == 2 then AbsentOf(o, members, ServiceTier)
    else if k == 3 then AbsentOf(o, members, ServiceTier) + AbsentOf(o, members, Speed)
    else Absent(o, members)
  }

  lemma AbsentNext(o: Overrides, members: seq<Member>, k: nat)
    requires 1 <= k < 4
    ensures var f := FieldOf(KEYS[k]).value;
            && FieldOf(KEYS[k]).Some? && FieldKey(f) == KEYS[k]
            && AbsentUpTo(o, members, k + 1) == AbsentUpTo(o, members, k) + AbsentOf(o, members, f)
            && o.For(KEYS[k]) == o.members.Of(f)
  {}

  /** What looking up the first `k` keys has found fit. */
  ghost predicate FitUpTo(o: Overrides, members: seq<Member>, k: nat)
    requires k <= 4
  {
    && (k >= 1 && o.model != "" ==> Named(members, "model"))
    && (forall j | 0 <= j < |members| && members[j].key in FirstKeys(k) :: o.For(members[j].key) != "" ==> members[j].value.Str?)
  }

  lemma FitAll(o: Overrides, members: seq<Member>)
    ensures FitUpTo(o, members, 4) <==> (o.model != "" ==> Named(members, "model")) && Settable(o, members)
  {
    hide FirstKeys;
    forall j | 0 <= j < |members| && o.For(members[j].key) != "" ensures members[j].key in FirstKeys(4) {
      AllKeys(o, members[j].key);
    }
  }

  /** The state of the gathering once the first `k` keys were looked up. */
  ghost predicate Gathered(o: Overrides, open: nat, members: seq<Member>, k: nat, es: seq<Edit>, ins: string)
    requires k <= 4
  {
    Covers(o, open, members, FirstKeys(k), es) && ins == Listing(AbsentUpTo(o, members, k)) && FitUpTo(o, members, k) && |es| <= k
  }

  lemma GatheredNone(o: Overrides, open: nat, members: seq<Member>)
    ensures Gathered(o, open, members, 0, [], "")
  {
    hide EditIs;
    assert FirstKeys(0) == {};
  }

  lemma FitSkip(o: Overrides, members: seq<Member>, k: nat)
    requires k < 4 && FitUpTo(o, members, k)
    requires k >= 1 || o.model == ""
    requires o.For(KEYS[k]) == "" || !Named(members, KEYS[k])
    ensures FitUpTo(o, members, k + 1)
  {
    hide FirstKeys;
    FirstKeysNext(k);
  }

  lemma FitFound(o: Overrides, members: seq<Member>, k: nat, j: nat)
    requires k < 4 && FitUpTo(o, members, k) && DistinctKeys(members)
    requires j < |members| && members[j].key == KEYS[k] && members[j].value.Str?
    ensures FitUpTo(o, members, k + 1)
  {
    hide FirstKeys;
    FirstKeysNext(k);
  }

  lemma AbsentSame(o: Overrides, members: seq<Member>, k: nat)
    requires k < 4 && (o.For(KEYS[k]) == "" || Named(members, KEYS[k]))
    ensures AbsentUpTo(o, members, k + 1) == AbsentUpTo(o, members, k)
  {
    if k >= 1 { AbsentNext(o, members, k); }
  }

  /** A key not set, or set and found. */
  lemma GatheredSkip(o: Overrides, open: nat, members: seq<Member>, k: nat, es: seq<Edit>, ins: string)
    requires k < 4 && Gathered(o, open, members, k, es, ins) && o.For(KEYS[k]) == ""
    ensures Gathered(o, open, members, k + 1, es, ins)
  {
    hide Covers, FitUpTo, FirstKeys, Listing, AbsentUpTo;
    FirstKeysNext(k);
    CoverNone(o, open, members, FirstKeys(k), es, KEYS[k]);
    AbsentSame(o, members, k);
    FitSkip(o, members, k);
  }

  lemma GatheredFound(o: Overrides, open: nat, members: seq<Member>, k: nat, es: seq<Edit>, ins: string, j: nat)
    requires k < 4 && Gathered(o, open, members, k, es, ins) && o.For(KEYS[k]) != "" && DistinctKeys(members)
    requires j < |members| && members[j].key == KEYS[k] && members[j].value.Str?
    ensures Gathered(o, open, members, k + 1, es + [EditOf(o, open, members, j)], ins)
  {
    hide Covers, FitUpTo, FirstKeys, Listing, AbsentUpTo, EditOf, DistinctKeys;
    FirstKeysNext(k);
    CoverOne(o, open, members, FirstKeys(k), es, j);
    AbsentSame(o, members, k);
    FitFound(o, members, k, j);
  }

  lemma GatheredAbsent(o: Overrides, open: nat, members: seq<Member>, k: nat, es: seq<Edit>, ins: string)
    requires 1 <= k < 4 && Gathered(o, open, members, k, es, ins) && o.For(KEYS[k]) != "" && !Named(members, KEYS[k])
    ensures Gathered(o, open, members, k + 1, es,
                     ins + ((if ins == "" then "" else ",") + MemberText(Member("", KEYS[k], "", "", Str(o.For(KEYS[k])), ""))))
  {
    hide Covers, FitUpTo, FirstKeys, Listing, AbsentUpTo, Named, MemberText;
    FirstKeysNext(k);
    CoverNone(o, open, members, FirstKeys(k), es, KEYS[k]);
    FitSkip(o, members, k);
    AbsentNext(o, members, k);
    var m := Member("", KEYS[k], "", "", Str(o.For(KEYS[k])), "");
    assert AbsentUpTo(o, members, k + 1) == AbsentUpTo(o, members, k) + [m];
    ListingSnoc(AbsentUpTo(o, members, k), m);
    ListingEmpty(AbsentUpTo(o, members, k));
  }

  lemma ListingEmpty(members: seq<Member>)
    ensures Listing(members) == "" <==> members == []
  {
    hide MemberText;
    if members != [] { MemberLong(members[0]); }
  }

  /** `had` is the client's own service tier when one is replaced, and empty if none is. */
  predicate TierReplaced(o: Overrides, members: seq<Member>, had: string) {
    if o.For("service_tier") != "" && Named(members, "service_tier")
    then exists k | 0 <= k < |members| :: members[k].key == "service_tier" && members[k].value == Str(had)
    else had == ""
  }

  /** The edits and the insertion, or a refusal. `had` is the client's own service tier, when one is replaced. */
  method GatherEdits(o: Overrides, open: nat, members: seq<Member>) returns (ok: bool, es: array<Edit>, n: nat, ins: string, had: string)
    requires DistinctKeys(members)
    ensures fresh(es) && n <= es.Length
    ensures ok <==> (o.model != "" ==> Named(members, "model")) && Settable(o, members)
    ensures ok ==> Gathered(o, open, members, 4, es[..n], ins)
    ensures ok ==> TierReplaced(o, members, had)
  {
    hide Gathered, EditOf, FirstKeys, Listing, MemberText, Covers, Settable, DistinctKeys, Named, TierReplaced;
    es := new Edit[4](_ => Edit(0, 0, ""));
    n, ins, had, ok := 0, "", "", true;
    assert es[..0] == [];
    GatheredNone(o, open, members);
    for k := 0 to 4
      invariant n <= k && Gathered(o, open, members, k, es[..n], ins)
      invariant if k <= 1 then had == "" else TierReplaced(o, members, had)
    {
      if o.For(KEYS[k]) == "" {
        GatheredSkip(o, open, members, k, es[..n], ins);
        if k == 1 { TierStays(o, members); }
      } else {
        var j := FindMember(members, KEYS[k]);
        if j.Some? {
          if !members[j.value].value.Str? {
            NotSettable(o, members, j.value);
            ok := false;
            return;
          }
          GatheredFound(o, open, members, k, es[..n], ins, j.value);
          if k == 1 {
            had := members[j.value].value.raw;
            TierFound(o, members, j.value);
          }
          ghost var was := es[..n];
          es[n] := EditOf(o, open, members, j.value);
          n := n + 1;
          assert es[..n] == was + [EditOf(o, open, members, j.value)];
        } else if k == 0 {
          ok := false;
          return;
        } else {
          GatheredAbsent(o, open, members, k, es[..n], ins);
          if k == 1 { TierStays(o, members); }
          ins := AppendMember(ins, ins == "", KEYS[k], o.For(KEYS[k]));
        }
      }
    }
    GatheredFits(o, open, members, es[..n], ins);
  }

  lemma TierStays(o: Overrides, members: seq<Member>)
    requires o.For("service_tier") == "" || !Named(members, "service_tier")
    ensures TierReplaced(o, members, "")
  {}

  lemma TierFound(o: Overrides, members: seq<Member>, k: nat)
    requires o.For("service_tier") != "" && k < |members| && members[k].key == "service_tier" && members[k].value.Str?
    ensures TierReplaced(o, members, members[k].value.raw)
  {}

  lemma NotSettable(o: Overrides, members: seq<Member>, j: nat)
    requires j < |members| && o.For(members[j].key) != "" && !members[j].value.Str?
    ensures !Settable(o, members)
  {}

  lemma GatheredFits(o: Overrides, open: nat, members: seq<Member>, es: seq<Edit>, ins: string)
    requires Gathered(o, open, members, 4, es, ins)
    ensures (o.model != "" ==> Named(members, "model")) && Settable(o, members)
  {
    hide Covers, FirstKeys, Listing;
    FitAll(o, members);
  }

  // ---------------------------------------------------------------- the copy

  /** The edits lie in order inside the body, from `cursor` on. */
  predicate Fitting(n: nat, cursor: nat, edits: seq<Edit>)
    decreases |edits|
  {
    if edits == [] then cursor <= n
    else cursor <= edits[0].at && edits[0].at + edits[0].drop <= n && Fitting(n, edits[0].at + edits[0].drop, edits[1..])
  }

  lemma {:induction false} EditsFit(o: Overrides, open: nat, members: seq<Member>, k: nat, n: nat, cursor: nat)
    requires k <= |members| && cursor <= MemberAt(open, members, k) && MemberAt(open, members, |members|) <= n
    ensures Fitting(n, cursor, EditsFrom(o, open, members, k))
    decreases |members| - k
  {
    hide MemberAt, EditOf;
    AtMonotone(open, members, k, |members|);
    if k < |members| {
      AtGrows(open, members, k);
      var rest := EditsFrom(o, open, members, k + 1);
      if Edited(o, members, k) {
        EditPlace(o, open, members, k);
        var e := EditOf(o, open, members, k);
        EditsFit(o, open, members, k + 1, n, e.at + e.drop);
        AtMonotone(open, members, k + 1, |members|);
        assert ([e] + rest)[1..] == rest;
      } else {
        EditsFit(o, open, members, k + 1, n, cursor);
        assert [] + rest == rest;
      }
    }
  }

  /** Copies the body from `from` on around the edits. */
  method CopyEdits(out0: string, body: string, from: nat, edits: seq<Edit>) returns (out: string)
    requires Fitting(|body|, from, edits)
    ensures out == out0 + Applied(body, from, edits)
  {
    hide Applied;
    out := out0;
    var cursor: nat := from;
    assert edits[0..] == edits;
    for i := 0 to |edits|
      invariant Fitting(|body|, cursor, edits[i..])
      invariant out + Applied(body, cursor, edits[i..]) == out0 + Applied(body, from, edits)
    {
      var e := edits[i];
      assert edits[i..][1..] == edits[i + 1..];
      AppliedFirst(body, cursor, edits[i..]);
      CopyJoin(out, body[cursor..e.at], e.text, Applied(body, e.at + e.drop, edits[i + 1..]));
      out := out + body[cursor..e.at] + e.text;
      cursor := e.at + e.drop;
    }
    AppliedNone(body, cursor);
    assert edits[|edits|..] == [];
    out := out + body[cursor..];
  }

  lemma CopyJoin(a: string, b: string, c: string, d: string)
    ensures a + (b + c + d) == (a + b + c) + d
  {}

  /** The first byte after the blank from `i` on. */
  method SkipBlank(body: string, i: nat) returns (j: nat)
    requires i <= |body|
    ensures i <= j <= |body| && Blank(body[i..j]) && (j < |body| ==> !Ws(body[j]))
  {
    j := i;
    while j < |body| && Ws(body[j])
      invariant i <= j <= |body| && Blank(body[i..j])
    {
      assert body[i..j + 1] == body[i..j] + [body[j]];
      j := j + 1;
    }
  }

  /** Where a blank ends is settled by the text. */
  lemma BlankEnds(body: string, i: nat, j: nat, blank: string, c: char)
    requires i <= j <= |body| && Blank(body[i..j]) && (j < |body| ==> !Ws(body[j]))
    requires Blank(blank) && !Ws(c) && i + |blank| < |body| && body[i..i + |blank|] == blank && body[i + |blank|] == c
    ensures j == i + |blank|
  {
  }
}
