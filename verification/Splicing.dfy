/** A body rewritten while it streams (gateway/src/splice.cpp, gateway/src/request.cpp and
    gateway/src/request.hpp): a sentinel model replaced, a policy's members inserted after the
    root's `{`, and the client's own copies of those members blanked.
 */
module Splicing {
  import opened Json
  import opened Options
  import opened Automaton

  function Spaces(n: nat): (r: string)
    ensures |r| == n
  {
    seq(n, _ => ' ')
  }

  // ---------------------------------------------------------------- what is spliced

  datatype ModelSplice = ModelSplice(sentinel: string, replacement: string) {
    function Grow(): nat { if |replacement| > |sentinel| then |replacement| - |sentinel| else 0 }

    function Shrink(): nat { if |sentinel| > |replacement| then |sentinel| - |replacement| else 0 }

    /** The value at [at, end) is the sentinel, raw, between quotes. */
    predicate Matches(body: string, at: Option<nat>, end: Option<nat>) {
      && at.Some? && end.Some? && at.value <= end.value <= |body|
      && end.value - at.value == |sentinel| + 2
      && body[at.value] == '"' && body[at.value + 1..end.value - 1] == sentinel && body[end.value - 1] == '"'
    }

    /** What goes in the value's place. */
    function Value(): string { "\"" + replacement + "\"" + Spaces(Shrink()) }
  }

  /** A member's value; empty for one the policy does not set. */
  datatype MemberSplice = MemberSplice(serviceTier: string, speed: string, inferenceGeo: string) {
    function Of(f: Field): string {
      match f
      case ServiceTier => serviceTier
      case Speed => speed
      case InferenceGeo => inferenceGeo
    }

    function Mask(): (r: set<Field>)
      ensures forall f: Field :: f in r <==> Of(f) != ""
    {
      (if serviceTier != "" then {ServiceTier} else {}) + (if speed != "" then {Speed} else {}) +
      (if inferenceGeo != "" then {InferenceGeo} else {})
    }

    /** The members' text and one separator. */
    function Grow(): nat {
      GrowOf(ServiceTier) + GrowOf(Speed) + GrowOf(InferenceGeo)
    }

    function GrowOf(f: Field): nat { if Of(f) == "" then 0 else |FieldKey(f)| + |Of(f)| + 6 }

    /** The members set, as members of an object, in the original's order. */
    function Members(): (r: seq<Member>)
      ensures r == [] <==> Mask() == {}
    {
      MemberOf(ServiceTier) + MemberOf(Speed) + MemberOf(InferenceGeo)
    }

    function MemberOf(f: Field): seq<Member> {
      if Of(f) == "" then [] else [Member("", FieldKey(f), "", "", Str(Of(f)), "")]
    }
  }

  datatype Splice = Splice(model: ModelSplice, members: MemberSplice) {
    function Grow(): nat { model.Grow() + members.Grow() }

    /** The body's model is the sentinel and goes replaced. */
    predicate Hit(body: string, m: Marks) {
      model.sentinel != "" && model.Matches(body, m.modelAt, m.modelEnd)
    }
  }

  // ---------------------------------------------------------------- what goes for each byte

  /** Byte `i` is in a member of the client's that the policy replaces. */
  predicate Blanked(sp: Splice, m: Marks, i: nat) {
    exists k | 0 <= k < |m.found| :: m.found[k].field in sp.members.Mask() && m.found[k].at <= i < m.found[k].end
  }

  /** The root's first member is one the policy replaces. */
  predicate FirstBlanked(sp: Splice, m: Marks) {
    exists k | 0 <= k < |m.found| :: m.found[k].field in sp.members.Mask() && m.openAt == Some(m.found[k].at)
  }

  /** What the client's byte `i` goes as. */
  function Byte(sp: Splice, body: string, m: Marks, i: nat): string
    requires i < |body|
  {
    if Blanked(sp, m, i) then " "
    else if sp.Hit(body, m) && m.modelAt.value <= i < m.modelEnd.value then
      if i == m.modelAt.value then sp.model.Value() else ""
    else [body[i]]
  }

  /** What the client's bytes [a, b) go as. */
  function Image(sp: Splice, body: string, m: Marks, a: nat, b: nat): string
    requires a <= b <= |body|
    decreases b
  {
    if a == b then "" else Image(sp, body, m, a, b - 1) + Byte(sp, body, m, b - 1)
  }

  /** What goes in after the root's `{`. */
  function Insertion(sp: Splice, m: Marks): string {
    if sp.members.Members() == [] then ""
    else MembersText(sp.members.Members()) + (if m.hasMember && !FirstBlanked(sp, m) then "," else " ")
  }

  predicate Inserts(sp: Splice, m: Marks, a: nat, b: nat) {
    sp.members.Mask() != {} && m.openAt.Some? && a <= m.openAt.value < b
  }

  /** The venue's bytes for the client's [a, b), insertion included. */
  function Range(sp: Splice, body: string, m: Marks, a: nat, b: nat): string
    requires a <= b <= |body|
  {
    if Inserts(sp, m, a, b) then
      Image(sp, body, m, a, m.openAt.value) + Insertion(sp, m) + Image(sp, body, m, m.openAt.value, b)
    else Image(sp, body, m, a, b)
  }

  /** The spaces that make up the declared length when the model was not the sentinel. */
  function Trailer(sp: Splice, body: string, m: Marks): string {
    if sp.model.sentinel != "" && !sp.Hit(body, m) then Spaces(sp.model.Grow()) else ""
  }

  /** Everything `append` adds for [a, b) of a body `bodyLen` long. */
  function Sent(sp: Splice, body: string, m: Marks, a: nat, b: nat, bodyLen: nat): string
    requires a <= b <= |body|
  {
    Range(sp, body, m, a, b) + if b == bodyLen then Trailer(sp, body, m) else ""
  }

  // ---------------------------------------------------------------- ranges compose

  lemma {:induction false} ImageSplit(sp: Splice, body: string, m: Marks, a: nat, b: nat, c: nat)
    requires a <= b <= c <= |body|
    ensures Image(sp, body, m, a, c) == Image(sp, body, m, a, b) + Image(sp, body, m, b, c)
    decreases c
  {
    hide Byte;
    if b < c { ImageSplit(sp, body, m, a, b, c - 1); }
  }

  /** Two ranges that meet go as one. */
  lemma RangeSplit(sp: Splice, body: string, m: Marks, a: nat, b: nat, c: nat)
    requires a <= b <= c <= |body|
    ensures Range(sp, body, m, a, c) == Range(sp, body, m, a, b) + Range(sp, body, m, b, c)
  {
    hide Image, Insertion;
    if Inserts(sp, m, a, c) {
      var o := m.openAt.value;
      if o < b { ImageSplit(sp, body, m, o, b, c); } else { ImageSplit(sp, body, m, a, b, o); }
    } else {
      ImageSplit(sp, body, m, a, b, c);
    }
  }

  /** Bytes no span covers go as they are. */
  lemma {:induction false} ImagePlain(sp: Splice, body: string, m: Marks, a: nat, b: nat)
    requires a <= b <= |body|
    requires forall i: nat | a <= i < b :: !Blanked(sp, m, i)
    requires sp.Hit(body, m) ==> b <= m.modelAt.value || m.modelEnd.value <= a
    ensures Image(sp, body, m, a, b) == body[a..b]
    decreases b
  {
    hide Blanked;
    if a < b {
      ImagePlain(sp, body, m, a, b - 1);
      assert body[a..b] == body[a..b - 1] + [body[b - 1]];
    }
  }

  lemma {:induction false} ImageBlank(sp: Splice, body: string, m: Marks, a: nat, b: nat)
    requires a <= b <= |body| && forall i: nat | a <= i < b :: Blanked(sp, m, i)
    ensures Image(sp, body, m, a, b) == Spaces(b - a)
    decreases b
  {
    hide Blanked;
    if a < b { ImageBlank(sp, body, m, a, b - 1); }
  }

  /** The model's value goes as the replacement. */
  lemma {:induction false} ImageModel(sp: Splice, body: string, m: Marks, b: nat)
    requires sp.Hit(body, m) && m.modelAt.value < b <= m.modelEnd.value
    requires forall i: nat | m.modelAt.value <= i < b :: !Blanked(sp, m, i)
    ensures Image(sp, body, m, m.modelAt.value, b) == sp.model.Value()
    decreases b
  {
    hide Blanked;
    var a := m.modelAt.value;
    assert Image(sp, body, m, a, a) == "";
    if a + 1 < b { ImageModel(sp, body, m, b - 1); }
  }

  lemma ImageNone(sp: Splice, body: string, m: Marks, a: nat)
    requires a <= |body|
    ensures Image(sp, body, m, a, a) == ""
  {}

  lemma {:induction false} MembersTextSnoc(members: seq<Member>, m: Member)
    ensures MembersText(members + [m]) == if members == [] then MemberText(m) else MembersText(members) + "," + MemberText(m)
    decreases |members|
  {
    hide MemberText;
    if |members| >= 1 {
      assert (members + [m])[1..] == members[1..] + [m];
      MembersTextSnoc(members[1..], m);
    }
  }
}
