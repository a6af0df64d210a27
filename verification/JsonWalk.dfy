/** The top-level walk over an object's text (provider/src/json_scan.hpp), and the model a body
    names (provider/src/translate_body.cpp).
 */
module JsonWalk {
  import opened Json
  import opened Options
  import opened Automaton
  import opened SpanPlaces
  import opened Splicing
  import opened SplicePieces
  import opened SpliceStream
  import opened SpliceMarks
  import opened SpliceTree
  import opened SpliceResult
  import opened SafePoints
  import opened HeldRewrite
  import opened HeldText
  import opened JsonScan

  /** What a reader is shown: raw keys and raw values, in order, until it has seen enough. */
  function Visits(members: seq<Member>, more: (string, string) -> bool): seq<(string, string)>
    decreases |members|
  {
    if members == [] then []
    else
      var key, text := members[0].key, Text(members[0].value);
      [(key, text)] + if more(key, text) then Visits(members[1..], more) else []
  }

  // ---------------------------------------------------------------- where members stand

  /** The k-th member's text stands at its place, and a comma or the closing brace after it. */
  predicate MemberStands(obj: string, open: nat, members: seq<Member>, k: nat)
    requires k < |members|
  {
    var at, next := MemberAt(open, members, k), Next(MemberAt(open, members, k), members[k]);
    && next < |obj| && obj[at..next] == MemberText(members[k])
    && obj[next] == if k + 1 < |members| then ',' else '}'
  }

  lemma {:induction false} RestStands(obj: string, open: nat, v: Value, k: nat)
    requires v.Obj? && Braced(obj, open, v) && k < |v.members|
    ensures var at, close := MemberAt(open, v.members, k), open + |Inside(v)|;
            && at + |MemberText(v.members[k])| + |Commas(v.members[k + 1..])| == close < |obj|
            && obj[at..close] == MemberText(v.members[k]) + Commas(v.members[k + 1..])
    decreases k
  {
    hide MemberText, MembersText, Commas, MemberAt, Braced, Inside;
    var ms, close := v.members, open + |Inside(v)|;
    if k == 0 {
      FirstStands(obj, open, v);
    } else {
      RestStands(obj, open, v, k - 1);
      AtNext(open, ms, k - 1);
      NextAt(MemberAt(open, ms, k - 1), ms[k - 1]);
      StandsNext(obj, MemberAt(open, ms, k - 1), close, MemberText(ms[k - 1]), ms, k);
    }
  }

  lemma FirstStands(obj: string, open: nat, v: Value)
    requires v.Obj? && Braced(obj, open, v) && v.members != []
    ensures MemberAt(open, v.members, 0) == open
    ensures var close := open + |Inside(v)|;
            && open + |MemberText(v.members[0])| + |Commas(v.members[1..])| == close < |obj|
            && obj[open..close] == MemberText(v.members[0]) + Commas(v.members[1..])
  {
    hide MemberText, MembersText, Commas;
    MembersCommas(v.members);
  }

  lemma AtFirst(open: nat, members: seq<Member>)
    ensures MemberAt(open, members, 0) == open
  {}

  lemma StandsNext(obj: string, at: nat, close: nat, before: string, ms: seq<Member>, k: nat)
    requires k < |ms| && at + |before| + |Commas(ms[k..])| == close <= |obj| && obj[at..close] == before + Commas(ms[k..])
    ensures at + |before| + 1 + |MemberText(ms[k])| + |Commas(ms[k + 1..])| == close
    ensures obj[at + |before| + 1..close] == MemberText(ms[k]) + Commas(ms[k + 1..])
  {
    hide MemberText, Commas;
    CommasFirst(ms, k);
    Slices(obj, at, before, Commas(ms[k..]));
    RestJoin(",", MemberText(ms[k]), Commas(ms[k + 1..]));
    Slices(obj, at + |before|, ",", MemberText(ms[k]) + Commas(ms[k + 1..]));
  }

  lemma Stands(obj: string, open: nat, v: Value, k: nat)
    requires v.Obj? && Braced(obj, open, v) && k < |v.members|
    ensures MemberStands(obj, open, v.members, k)
  {
    hide MemberText, MembersText, MemberAt;
    var ms, at, close := v.members, MemberAt(open, v.members, k), open + |Inside(v)|;
    RestStands(obj, open, v, k);
    NextAt(at, ms[k]);
    Slices(obj, at, MemberText(ms[k]), Commas(ms[k + 1..]));
    if k + 1 < |ms| {
      CommasFirst(ms, k + 1);
      var rest := obj[at + |MemberText(ms[k])|..close];
      assert rest == Commas(ms[k + 1..]) && rest[0] == ',';
    }
  }

  /** The bytes of a member's head and value. */
  lemma MemberBytes(obj: string, at: nat, m: Member)
    requires at + |MemberText(m)| <= |obj| && obj[at..at + |MemberText(m)|] == MemberText(m)
    ensures at + |MemberHead(m)| + |Text(m.value)| + |m.post| == at + |MemberText(m)|
    ensures obj[at..at + |MemberHead(m)|] == MemberHead(m)
    ensures obj[ValueAt(at, m)..ValueEnd(at, m)] == Text(m.value)
    ensures obj[ValueEnd(at, m)..at + |MemberText(m)|] == m.post
  {
    hide MemberHead, Text;
    NothingMore(MemberText(m));
    PiecesAt(obj, at, MemberHead(m), Text(m.value), m.post, "");
  }

  lemma KeyQuote(obj: string, at: nat, m: Member)
    requires MemberOk(m) && at + |MemberText(m)| <= |obj| && obj[at..at + |MemberText(m)|] == MemberText(m)
    ensures at + |m.pre| < |obj| && obj[at..at + |m.pre|] == m.pre && obj[at + |m.pre|] == '"'
    ensures at + |m.pre| < ValueAt(at, m) < ValueEnd(at, m) <= at + |MemberText(m)|
  {
    hide MemberText, MemberHead, Text, ValueOk;
    MemberBytes(obj, at, m);
    HeadAt(obj, at, m);
    QuotedAt(obj, at + |m.pre|, m.key);
    ValueNonempty(m.value);
  }

  lemma ValueNonempty(v: Value)
    requires ValueOk(v)
    ensures |Text(v)| > 0
  {
    hide ItemsText, MembersText, NumberText;
    if v.Num? { NumberNeutral(v.number); }
  }

  // ---------------------------------------------------------------- one member

  lemma ValueStops(obj: string, at: nat, m: Member)
    requires MemberOk(m) && at + |MemberText(m)| < |obj| && obj[at..at + |MemberText(m)|] == MemberText(m)
    requires Stops(obj[at + |MemberText(m)|])
    ensures ValueEnd(at, m) < |obj| && Stops(obj[ValueEnd(at, m)])
  {
    hide MemberText, MemberHead, Text, ValueOk;
    MemberBytes(obj, at, m);
    if m.post != "" {
      assert obj[ValueEnd(at, m)] == obj[ValueEnd(at, m)..at + |MemberText(m)|][0];
      assert Ws(m.post[0]);
    }
  }

  lemma FirstByte(v: Value)
    requires ValueOk(v)
    ensures |Text(v)| > 0 && !Ws(Text(v)[0])
  {
    hide ItemsText, MembersText, NumberText;
    if v.Num? { NumberNeutral(v.number); }
    if v.Lit? { LiteralNeutral(v.literal); }
  }

  /** The member `m` stands at `at`, with its key's quote at `i`. */
  ghost predicate StandsAt(obj: string, i: nat, at: nat, m: Member) {
    && MemberOk(m) && i == at + |m.pre| && at + |MemberText(m)| < |obj|
    && obj[at..at + |MemberText(m)|] == MemberText(m) && Stops(obj[at + |MemberText(m)|])
  }

  lemma KeyBytes(obj: string, i: nat, at: nat, m: Member)
    requires StandsAt(obj, i, at, m) && i < |obj|
    ensures var close := i + 1 + |m.key|; var colon := close + 1 + |m.beforeColon|;
            && CloseFrom(obj, i + 1) == Some(close) && obj[i + 1..close] == m.key
            && colon < |obj| && obj[close + 1..colon] == m.beforeColon && obj[colon] == ':' && Blank(m.beforeColon)
            && colon + 1 + |m.afterColon| == ValueAt(at, m) <= |obj| && obj[colon + 1..ValueAt(at, m)] == m.afterColon
  {
    hide MemberText, MemberHead, Text, ValueOk, CloseFrom, StringBody, Stops;
    MemberBytes(obj, at, m);
    HeadAt(obj, at, m);
    QuotedAt(obj, i, m.key);
    CloseBody(obj, i + 1, m.key);
  }

  /** A key and its colon, from the quote at `i`: the key's text and where the value begins. */
  method ReadKey(obj: string, i: nat, ghost at: nat, ghost m: Option<Member>) returns (r: Option<(string, nat)>)
    requires i < |obj| && obj[i] == '"' && (m.Some? ==> StandsAt(obj, i, at, m.value))
    ensures m.Some? ==>
              && r == Some((m.value.key, ValueAt(at, m.value))) && ValueEndFrom(obj, r.value.1) == Some(ValueEnd(at, m.value))
              && r.value.1 <= ValueEnd(at, m.value) <= |obj| && obj[r.value.1..ValueEnd(at, m.value)] == Text(m.value.value)
    ensures r.Some? ==> i < r.value.1 <= |obj|
  {
    hide MemberText, MemberHead, Text, ValueOk, CloseFrom, ValueEndFrom, StringBody, Stops, StandsAt, ValueAt, ValueEnd;
    if m.Some? { KeyBytes(obj, i, at, m.value); }
    var close := StringClose(obj, i + 1);
    if close.None? { return None; }
    var j := SkipBlank(obj, close.value + 1);
    if m.Some? { BlankEnds(obj, close.value + 1, j, m.value.beforeColon, ':'); }
    if j >= |obj| || obj[j] != ':' { return None; }
    var vb := SkipBlank(obj, j + 1);
    if m.Some? { ValueBegins(obj, i, at, m.value, j + 1, vb); }
    return Some((obj[i + 1..close.value], vb));
  }

  /** One member, from its key's quote at `i`: its key, its value's text, and where the value ends.
      `m` is the member that stands there, if one is known to. */
  method ReadMember(obj: string, i: nat, ghost at: nat, ghost m: Option<Member>) returns (r: Option<(string, string, nat)>)
    requires i < |obj| && obj[i] == '"' && (m.Some? ==> StandsAt(obj, i, at, m.value))
    ensures m.Some? ==> r == Some((m.value.key, Text(m.value.value), ValueEnd(at, m.value)))
    ensures r.Some? ==> i < r.value.2 <= |obj|
  {
    hide Text, ValueEndFrom, StandsAt, ValueAt, ValueEnd;
    var key := ReadKey(obj, i, at, m);
    if key.None? { return None; }
    var vb := key.value.1;
    var end := SkipValue(obj, vb);
    if end.None? { return None; }
    EndForward(obj, vb);
    return Some((key.value.0, obj[vb..end.value], end.value));
  }

  /** The blank after the colon ends at the value, and the value where `skip_value` says. */
  lemma ValueBegins(obj: string, i: nat, at: nat, m: Member, from: nat, vb: nat)
    requires StandsAt(obj, i, at, m)
    requires from + |m.afterColon| == ValueAt(at, m) && from <= vb <= |obj|
    requires Blank(obj[from..vb]) && (vb < |obj| ==> !Ws(obj[vb])) && obj[from..ValueAt(at, m)] == m.afterColon
    ensures vb == ValueAt(at, m) <= ValueEnd(at, m) <= |obj| && ValueEndFrom(obj, vb) == Some(ValueEnd(at, m))
    ensures obj[vb..ValueEnd(at, m)] == Text(m.value)
  {
    hide MemberText, MemberHead, Text, ValueOk, CloseFrom, ValueEndFrom, StringBody, Stops;
    MemberBytes(obj, at, m);
    FirstByte(m.value);
    var v := ValueAt(at, m);
    assert obj[v] == obj[v..ValueEnd(at, m)][0];
    BlankEnds(obj, from, vb, m.afterColon, obj[v]);
    ValueStops(obj, at, m);
    SkipsValue(obj, v, m.value);
  }

  lemma EndForward(b: string, i: nat)
    requires i <= |b| && ValueEndFrom(b, i).Some?
    ensures i < ValueEndFrom(b, i).value <= |b|
  {
    hide CloseFrom;
    if i < |b| && Opens(b[i]) { NestForward(b, i, 0); }
  }

  lemma {:induction false} NestForward(b: string, i: nat, depth: nat)
    requires NestEnd(b, i, depth).Some?
    ensures i < NestEnd(b, i, depth).value <= |b|
    decreases |b| - i
  {
    if i < |b| {
      if b[i] == '"' {
        NestForward(b, CloseFrom(b, i + 1).value + 1, depth);
      } else if Opens(b[i]) {
        NestForward(b, i + 1, depth + 1);
      } else if !(Closes(b[i]) && depth <= 1) {
        NestForward(b, i + 1, if Closes(b[i]) then depth - 1 else depth);
      }
    }
  }

  // ---------------------------------------------------------------- the walk

  /** The walk has come to the k-th member's key. */
  ghost predicate AtKey(obj: string, d: Doc, i: nat, k: nat) {
    && DocOk(d) && d.value.Obj? && DocText(d) == obj && k < |d.value.members|
    && i == MemberAt(|d.pre| + 1, d.value.members, k) + |d.value.members[k].pre|
  }

  lemma AtKeyStands(obj: string, d: Doc, i: nat, k: nat)
    requires AtKey(obj, d, i, k)
    ensures var at, m := MemberAt(|d.pre| + 1, d.value.members, k), d.value.members[k];
            && MemberOk(m) && at + |MemberText(m)| == Next(at, m) < |obj| && obj[at..at + |MemberText(m)|] == MemberText(m)
            && obj[Next(at, m)] == (if k + 1 < |d.value.members| then ',' else '}')
            && i < |obj| && obj[i] == '"'
  {
    hide MemberText, MemberAt, Braced, DocText, MemberOk;
    var open, m := |d.pre| + 1, d.value.members[k];
    assert MemberOk(m) by { DocMember(d, k); }
    DocBraced(d);
    Stands(obj, open, d.value, k);
    NextAt(MemberAt(open, d.value.members, k), m);
    KeyQuote(obj, MemberAt(open, d.value.members, k), m);
  }

  lemma DocMember(d: Doc, k: nat)
    requires DocOk(d) && d.value.Obj? && k < |d.value.members|
    ensures MemberOk(d.value.members[k])
  {}

  /** After the k-th member's value: its own blank, then what stands after the member. */
  lemma AfterMember(obj: string, d: Doc, i: nat, k: nat, j: nat)
    requires AtKey(obj, d, i, k)
    requires var m, at := d.value.members[k], MemberAt(|d.pre| + 1, d.value.members, k);
             ValueEnd(at, m) <= j <= |obj| && Blank(obj[ValueEnd(at, m)..j]) && (j < |obj| ==> !Ws(obj[j]))
    ensures j < |obj| && j == Next(MemberAt(|d.pre| + 1, d.value.members, k), d.value.members[k])
    ensures obj[j] == if k + 1 < |d.value.members| then ',' else '}'
  {
    hide MemberText, MemberAt, DocText, DocOk, MemberHead, Text, ValueOk;
    var m, at := d.value.members[k], MemberAt(|d.pre| + 1, d.value.members, k);
    AtKeyStands(obj, d, i, k);
    MemberBytes(obj, at, m);
    BlankEnds(obj, ValueEnd(at, m), j, m.post, obj[Next(at, m)]);
  }

  /** After the comma: the next member's key. */
  lemma NextKey(obj: string, d: Doc, i: nat, k: nat, j: nat)
    requires AtKey(obj, d, i, k) && k + 1 < |d.value.members|
    requires var next := Next(MemberAt(|d.pre| + 1, d.value.members, k), d.value.members[k]);
             next + 1 <= j <= |obj| && Blank(obj[next + 1..j]) && (j < |obj| ==> !Ws(obj[j]))
    ensures AtKey(obj, d, j, k + 1)
  {
    hide MemberText, MemberAt, DocText, DocOk, ValueOk, Next;
    var m, at := d.value.members[k + 1], MemberAt(|d.pre| + 1, d.value.members, k + 1);
    AtNext(|d.pre| + 1, d.value.members, k);
    AtKeyStands(obj, d, at + |m.pre|, k + 1);
    KeyQuote(obj, at, m);
    BlankEnds(obj, at, j, m.pre, '"');
  }

  /** After the opening brace: the first key, or the closing brace of an empty object. */
  lemma FirstKey(obj: string, d: Doc, i: nat, j: nat)
    requires DocOk(d) && d.value.Obj? && DocText(d) == obj
    requires i <= |obj| && Blank(obj[0..i]) && (i < |obj| ==> !Ws(obj[i]))
    requires i + 1 <= j <= |obj| ==> Blank(obj[i + 1..j]) && (j < |obj| ==> !Ws(obj[j]))
    ensures i == |d.pre| && i < |obj| && obj[i] == '{'
    ensures i + 1 <= j <= |obj| ==> j < |obj| && (obj[j] == '}' <==> d.value.members == [])
    ensures i + 1 <= j <= |obj| && d.value.members != [] ==> AtKey(obj, d, j, 0)
  {
    hide MemberText, DocText, ValueOk, MembersText, Inside, MemberOk;
    DocBraced(d);
    var open := |d.pre| + 1;
    assert |d.pre| < |obj| && obj[|d.pre|] == '{' && obj[0..|d.pre|] == d.pre by { BeforeBrace(obj, d); }
    BlankEnds(obj, 0, i, d.pre, '{');
    if i + 1 <= j <= |obj| {
      EmptyObject(obj, open, d.value, j);
      if d.value.members != [] {
        var m := d.value.members[0];
        AtFirst(open, d.value.members);
        AtKeyStands(obj, d, open + |m.pre|, 0);
        DocMember(d, 0);
        KeyQuote(obj, open, m);
        assert Blank(m.pre) by { MemberBlank(m); }
        BlankEnds(obj, open, j, m.pre, '"');
      }
    }
  }

  lemma MemberBlank(m: Member)
    requires MemberOk(m)
    ensures Blank(m.pre)
  {}

  lemma BeforeBrace(obj: string, d: Doc)
    requires d.value.Obj? && DocText(d) == obj
    ensures |d.pre| < |obj| && obj[|d.pre|] == '{' && obj[0..|d.pre|] == d.pre
  {
    hide MembersText;
    DocBraced(d);
    assert obj[0..|d.pre|] == obj[..|d.pre| + 1][..|d.pre|];
  }

  lemma VisitsFirst(members: seq<Member>, k: nat, more: (string, string) -> bool, seen: seq<(string, string)>)
    requires k < |members| && seen + Visits(members[k..], more) == Visits(members, more)
    ensures var key, text := members[k].key, Text(members[k].value);
            && (!more(key, text) ==> seen + [(key, text)] == Visits(members, more))
            && (more(key, text) ==> seen + [(key, text)] + Visits(members[k + 1..], more) == Visits(members, more))
  {
    hide Text, Visits;
    var pair := (members[k].key, Text(members[k].value));
    var rest := if more(pair.0, pair.1) then Visits(members[k + 1..], more) else [];
    VisitsUnfold(members, k, more);
    assert seen + ([pair] + rest) == seen + [pair] + rest;
  }

  lemma VisitsUnfold(members: seq<Member>, k: nat, more: (string, string) -> bool)
    requires k < |members|
    ensures var key, text := members[k].key, Text(members[k].value);
            Visits(members[k..], more) == [(key, text)] + if more(key, text) then Visits(members[k + 1..], more) else []
  {
    hide Text;
    assert members[k..][1..] == members[k + 1..];
  }

  /** `for_each_member`: shows `more` each member of the object at the front of `obj` until it has
      seen enough. On the text of a tree `d` it shows exactly the tree's members. */
  method ForEachMember(obj: string, more: (string, string) -> bool, ghost d: Option<Doc>)
      returns (ok: bool, seen: seq<(string, string)>)
    requires d.Some? ==> DocOk(d.value) && d.value.value.Obj? && DocText(d.value) == obj
    ensures d.Some? ==> ok && seen == Visits(d.value.value.members, more)
  {
    hide MemberText, MemberAt, DocText, DocOk, ValueOk, MemberOk, Next, ValueEnd, AtKey, Visits, Text, StandsAt;
    seen := [];
    var i := SkipBlank(obj, 0);
    if d.Some? { FirstKey(obj, d.value, i, 0); }
    if i >= |obj| || obj[i] != '{' { return false, seen; }
    var j := SkipBlank(obj, i + 1);
    if d.Some? {
      FirstKey(obj, d.value, i, j);
      VisitsNone(d.value.value.members, more);
    }
    if j < |obj| && obj[j] == '}' { return true, seen; }
    ghost var k := 0;
    i := j;
    while true
      invariant i <= |obj|
      invariant d.Some? ==> AtKey(obj, d.value, i, k) && k < |d.value.value.members|
      invariant d.Some? ==> seen + Visits(d.value.value.members[k..], more) == Visits(d.value.value.members, more)
      decreases |obj| - i
    {
      if d.Some? { AtKeyStands(obj, d.value, i, k); }
      if i >= |obj| || obj[i] != '"' { return false, seen; }
      ghost var at := if d.Some? then MemberAt(|d.value.pre| + 1, d.value.value.members, k) else 0;
      ghost var m := if d.Some? then Some(d.value.value.members[k]) else None;
      if d.Some? { KeyPlace(obj, d.value, i, k); VisitsFirst(d.value.value.members, k, more, seen); }
      var r := ReadMember(obj, i, at, m);
      if r.None? { return false, seen; }
      seen := seen + [(r.value.0, r.value.1)];
      if !more(r.value.0, r.value.1) { return true, seen; }
      var next := SkipBlank(obj, r.value.2);
      if d.Some? { AfterMember(obj, d.value, i, k, next); LastVisit(d.value.value.members, k, more); }
      if next < |obj| && obj[next] == '}' { return true, seen; }
      if next >= |obj| || obj[next] != ',' { return false, seen; }
      var following := SkipBlank(obj, next + 1);
      if d.Some? { NextKey(obj, d.value, i, k, following); }
      i := following;
      k := k + 1;
    }
  }

  lemma KeyPlace(obj: string, d: Doc, i: nat, k: nat)
    requires AtKey(obj, d, i, k)
    ensures StandsAt(obj, i, MemberAt(|d.pre| + 1, d.value.members, k), d.value.members[k])
  {
    hide MemberText, MemberAt, DocText, DocOk, MemberOk;
    AtKeyStands(obj, d, i, k);
  }

  lemma VisitsNone(members: seq<Member>, more: (string, string) -> bool)
    ensures Visits([], more) == [] && members[0..] == members
  {}

  lemma LastVisit(members: seq<Member>, k: nat, more: (string, string) -> bool)
    requires k < |members|
    ensures k + 1 == |members| ==> Visits(members[k + 1..], more) == []
  {}

  // ---------------------------------------------------------------- the model a body names

  /** The text of the first member with this key; empty for none. */
  function FirstText(members: seq<Member>, key: string): string
    decreases |members|
  {
    if members == [] then "" else if members[0].key == key then Text(members[0].value) else FirstText(members[1..], key)
  }

  /** The value of the last pair shown, if it has this key. */
  function LastOf(seen: seq<(string, string)>, key: string): string {
    if seen != [] && seen[|seen| - 1].0 == key then seen[|seen| - 1].1 else ""
  }

  lemma {:induction false} LastIsFirst(members: seq<Member>, key: string)
    ensures LastOf(Visits(members, (k, _) => k != key), key) == FirstText(members, key)
    decreases |members|
  {
    hide Text;
    if members != [] && members[0].key != key { LastIsFirst(members[1..], key); }
  }

  /** `first_member`. */
  method FirstMember(body: string, key: string, ghost d: Option<Doc>) returns (text: string)
    requires d.Some? ==> DocOk(d.value) && d.value.value.Obj? && DocText(d.value) == body
    ensures d.Some? ==> text == FirstText(d.value.value.members, key)
  {
    hide DocOk, DocText, Visits, FirstText;
    var ok, seen := ForEachMember(body, (k, _) => k != key, d);
    text := LastOf(seen, key);
    if d.Some? { LastIsFirst(d.value.value.members, key); }
  }

  /** A string value without escapes, unquoted; empty for anything else. */
  function PlainString(raw: string): string {
    if |raw| < 2 || raw[0] != '"' || raw[|raw| - 1] != '"' then ""
    else
      var inside := raw[1..|raw| - 1];
      if '\\' in inside then "" else inside
  }

  /** The model as it is read: a string without escapes, else none. */
  function PlainModel(v: Option<Value>): string {
    if v.Some? && v.value.Str? && '\\' !in v.value.raw then v.value.raw else ""
  }

  lemma PlainOfText(v: Value)
    requires ValueOk(v)
    ensures PlainString(Text(v)) == PlainModel(Some(v))
  {
    hide ItemsText, MembersText, NumberText;
    match v {
      case Str(raw) => assert Text(v)[1..|Text(v)| - 1] == raw;
      case Num(n) => NumberNeutral(n);
      case Lit(l) =>
      case Arr(_, _) => assert Text(v)[0] == '[';
      case Obj(_, _) => assert Text(v)[0] == '{';
    }
  }

  lemma {:induction false} FirstIsModel(members: seq<Member>)
    requires AllOk(members)
    ensures PlainString(FirstText(members, "model")) == PlainModel(ModelOf(members))
    decreases |members|
  {
    hide PlainString, PlainModel, ValueOk, Text;
    if members == [] {
      assert PlainString("") == PlainModel(None) by { NoModelIsNone(); }
    } else if members[0].key == "model" {
      assert MemberOk(members[0]);
      PlainOfText(members[0].value);
    } else {
      FirstIsModel(members[1..]);
    }
  }

  lemma NoModelIsNone()
    ensures PlainString("") == PlainModel(None)
  {}

  /** `model_of`: on the text of an object, its first `model`, if that is a string without escapes. */
  method ModelOfBody(body: string, ghost d: Option<Doc>) returns (model: string)
    requires d.Some? ==> DocOk(d.value) && d.value.value.Obj? && DocText(d.value) == body
    ensures d.Some? ==> model == PlainModel(ModelOf(d.value.value.members))
  {
    hide DocText, FirstText, PlainString, PlainModel, MemberOk;
    var text := FirstMember(body, "model", d);
    model := PlainString(text);
    if d.Some? { FirstIsModel(d.value.value.members); }
  }

  /** On every object the scan takes, `model_of` reads the sentinel exactly when the splice
      substitutes it. */
  lemma ModelReadIsModelSpliced(cfg: Config, sp: Splice, d: Doc)
    requires DocOk(d) && d.value.Obj? && Done(Verdict(cfg, DocText(d))) && Suits(cfg, sp)
    requires sp.model.sentinel != "" && AsIs(sp.model.sentinel)
    ensures var body := DocText(d);
            PlainModel(ModelOf(d.value.members)) == sp.model.sentinel <==> sp.Hit(body, At(cfg, body, |body|).core.marks)
  {
    hide At, Verdict, DocText, OneModel, MemberOk, TellAll;
    var body, open := DocText(d), |d.pre| + 1;
    ObjectFacts(cfg, d);
    ScanSpans(cfg, d);
    DocBraced(d);
    HitIs(cfg, sp, body, open, d.value);
    var m, t := At(cfg, body, |body|).core.marks, ObjectMarks(cfg, open, d.value.members);
    assert sp.Hit(body, m) == sp.Hit(body, t);
    assert '\\' !in sp.model.sentinel;
  }
}
