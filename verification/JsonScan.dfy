/** The readers that walk JSON text without a tree (provider/src/json_scan.hpp). On the text of a
    tree they find exactly its members.
 */
module JsonScan {
  import opened Json
  import opened Options
  import opened SpliceTree
  import opened HeldRewrite

  // ---------------------------------------------------------------- the end of a string

  /** A forward scan of string contents from `i`: the first quote no backslash escapes. */
  function CloseFrom(b: string, i: nat): (r: Option<nat>)
    ensures r.Some? ==> i <= r.value < |b| && b[r.value] == '"'
    decreases |b| - i
  {
    if i >= |b| then None
    else if b[i] == '"' then Some(i)
    else if b[i] == '\\' then (if i + 1 < |b| then CloseFrom(b, i + 2) else None)
    else CloseFrom(b, i + 1)
  }

  /** How many backslashes stand right before `k`, none of them before `i`. */
  function Slashes(b: string, i: nat, k: nat): (r: nat)
    requires i <= k <= |b|
    ensures r <= k - i
    decreases k
  {
    if k > i && b[k - 1] == '\\' then 1 + Slashes(b, i, k - 1) else 0
  }

  /** The first quote from `k` on that stands behind an even run of backslashes. */
  function EvenQuote(b: string, i: nat, k: nat): Option<nat>
    requires i <= k
    decreases |b| - k
  {
    if k >= |b| then None
    else if b[k] == '"' && Slashes(b, i, k) % 2 == 0 then Some(k)
    else EvenQuote(b, i, k + 1)
  }

  /** From a byte that is not escaped, counting backslashes finds the quote the forward scan does. */
  lemma {:induction false} CloseIsEvenQuote(b: string, i: nat, k: nat)
    requires i <= k && (k <= |b| ==> Slashes(b, i, k) % 2 == 0)
    ensures CloseFrom(b, k) == EvenQuote(b, i, k)
    decreases |b| - k
  {
    if k < |b| && b[k] != '"' {
      if b[k] != '\\' {
        CloseIsEvenQuote(b, i, k + 1);
      } else if k + 1 < |b| {
        assert Slashes(b, i, k + 1) == 1 + Slashes(b, i, k);
        assert Slashes(b, i, k + 2) % 2 == 0;
        CloseIsEvenQuote(b, i, k + 2);
        assert EvenQuote(b, i, k) == EvenQuote(b, i, k + 1) == EvenQuote(b, i, k + 2);
      }
    }
  }

  /** `memchr` for a quote. */
  method FindQuote(b: string, i: nat) returns (at: Option<nat>)
    requires i <= |b|
    ensures at.None? ==> forall k | i <= k < |b| :: b[k] != '"'
    ensures at.Some? ==> i <= at.value < |b| && b[at.value] == '"' && forall k | i <= k < at.value :: b[k] != '"'
  {
    for k := i to |b|
      invariant forall j | i <= j < k :: b[j] != '"'
    {
      if b[k] == '"' { return Some(k); }
    }
    return None;
  }

  lemma {:induction false} NoQuoteBefore(b: string, i: nat, k: nat, n: nat)
    requires i <= k <= n <= |b| && forall j | k <= j < n :: b[j] != '"'
    ensures EvenQuote(b, i, k) == EvenQuote(b, i, n)
    decreases n - k
  {
    if k < n { NoQuoteBefore(b, i, k + 1, n); }
  }

  /** The quote closing a string whose contents start at `i`: for every text, the one a forward
      scan of the escapes finds. */
  method StringClose(b: string, i: nat) returns (close: Option<nat>)
    requires i <= |b|
    ensures close == CloseFrom(b, i)
  {
    CloseIsEvenQuote(b, i, i);
    var from := i;
    while from < |b|
      invariant i <= from <= |b| && EvenQuote(b, i, i) == EvenQuote(b, i, from)
    {
      var q := FindQuote(b, from);
      if q.None? {
        NoQuoteBefore(b, i, from, |b|);
        break;
      }
      var at := q.value;
      NoQuoteBefore(b, i, from, at);
      var k := at;
      while k > i && b[k - 1] == '\\'
        invariant i <= k <= at && Slashes(b, i, at) == at - k + Slashes(b, i, k)
      {
        k := k - 1;
      }
      if (at - k) % 2 == 0 { return Some(at); }
      from := at + 1;
    }
    return None;
  }

  /** String contents followed by a quote close there. */
  lemma {:induction false} CloseBody(b: string, i: nat, raw: string)
    requires StringBody(raw) && i + |raw| < |b| && b[i..i + |raw|] == raw && b[i + |raw|] == '"'
    ensures CloseFrom(b, i) == Some(i + |raw|)
    decreases |raw|
  {
    if raw != "" {
      assert b[i] == raw[0];
      if Plain(raw[0]) && StringBody(raw[1..]) {
        CloseRest(b, i, raw, 1);
        CloseBody(b, i + 1, raw[1..]);
      } else if |raw| >= 2 && raw[0] == '\\' && ShortEscape(raw[1]) && StringBody(raw[2..]) {
        CloseRest(b, i, raw, 2);
        CloseBody(b, i + 2, raw[2..]);
      } else {
        CloseRest(b, i, raw, 6);
        CloseBody(b, i + 6, raw[6..]);
        CloseHex(b, i + 2);
      }
    }
  }

  lemma CloseRest(b: string, i: nat, raw: string, n: nat)
    requires n <= |raw| && i + |raw| < |b| && b[i..i + |raw|] == raw
    ensures b[i + n..i + |raw|] == raw[n..] && forall k | 0 <= k < n :: b[i + k] == raw[k]
  {
    forall k | 0 <= k < n ensures b[i + k] == raw[k] { assert b[i..i + |raw|][k] == raw[k]; }
    assert b[i..i + |raw|][n..] == b[i + n..i + |raw|];
  }

  lemma CloseHex(b: string, i: nat)
    requires i + 4 <= |b| && Hex(b[i]) && Hex(b[i + 1]) && Hex(b[i + 2]) && Hex(b[i + 3])
    ensures CloseFrom(b, i) == CloseFrom(b, i + 4)
  {
    assert CloseFrom(b, i) == CloseFrom(b, i + 1) == CloseFrom(b, i + 2) == CloseFrom(b, i + 3);
  }

  // ---------------------------------------------------------------- the end of a value

  predicate Opens(c: char) { c == '{' || c == '[' }

  predicate Closes(c: char) { c == '}' || c == ']' }

  /** Where the containers open at `i`, `depth` of them, have all closed. */
  function NestEnd(b: string, i: nat, depth: nat): Option<nat>
    decreases |b| - i
  {
    if i >= |b| then None
    else if b[i] == '"' then
      var close := CloseFrom(b, i + 1);
      if close.None? then None else NestEnd(b, close.value + 1, depth)
    else if Opens(b[i]) then NestEnd(b, i + 1, depth + 1)
    else if Closes(b[i]) && depth <= 1 then Some(i + 1)
    else NestEnd(b, i + 1, if Closes(b[i]) then depth - 1 else depth)
  }

  /** A byte that ends a literal or a number. */
  predicate Stops(c: char) { c == ',' || c == '}' || c == ']' || Ws(c) }

  function ScalarEnd(b: string, i: nat): (r: nat)
    requires i <= |b|
    ensures i <= r <= |b|
    decreases |b| - i
  {
    if i == |b| || Stops(b[i]) then i else ScalarEnd(b, i + 1)
  }

  /** What `skip_value` answers. */
  function ValueEndFrom(b: string, i: nat): Option<nat> {
    if i >= |b| then None
    else if b[i] == '"' then
      var close := CloseFrom(b, i + 1);
      if close.None? then None else Some(close.value + 1)
    else if Opens(b[i]) then NestEnd(b, i, 0)
    else if ScalarEnd(b, i) == i then None else Some(ScalarEnd(b, i))
  }

  /** Past one value starting at `i`. */
  method SkipValue(b: string, i0: nat) returns (end: Option<nat>)
    requires i0 <= |b|
    ensures end == ValueEndFrom(b, i0)
  {
    var i := i0;
    if i >= |b| { return None; }
    if b[i] == '"' {
      var close := StringClose(b, i + 1);
      return if close.None? then None else Some(close.value + 1);
    }
    if Opens(b[i]) {
      var depth := 0;
      while i < |b|
        invariant i0 <= i <= |b| && depth >= 0 && (i == i0 ==> depth == 0) && (i > i0 ==> depth > 0)
        invariant NestEnd(b, i0, 0) == NestEnd(b, i, depth)
        decreases |b| - i
      {
        var c := b[i];
        if c == '"' {
          var close := StringClose(b, i + 1);
          if close.None? { return None; }
          i := close.value + 1;
          continue;
        }
        if Opens(c) {
          depth := depth + 1;
        } else if Closes(c) {
          depth := depth - 1;
          if depth == 0 { return Some(i + 1); }
        }
        i := i + 1;
      }
      return None;
    }
    while i < |b| && !Stops(b[i])
      invariant i0 <= i <= |b| && ScalarEnd(b, i0) == ScalarEnd(b, i)
    {
      i := i + 1;
    }
    return if i == i0 then None else Some(i);
  }

  // ---------------------------------------------------------------- the text of a value

  /** Bytes a walk over nested containers passes over. */
  predicate Neutral(s: string) { forall k | 0 <= k < |s| :: s[k] != '"' && !Opens(s[k]) && !Closes(s[k]) }

  lemma {:induction false} NestNeutral(b: string, i: nat, s: string, depth: nat)
    requires Neutral(s) && i + |s| <= |b| && b[i..i + |s|] == s
    ensures NestEnd(b, i, depth) == NestEnd(b, i + |s|, depth)
    decreases |s|
  {
    hide CloseFrom;
    if s != "" {
      assert b[i] == s[0];
      Slices(b, i, s[..1], s[1..]);
      NestNeutral(b, i + 1, s[1..], depth);
    }
  }

  lemma {:induction false} NestString(b: string, i: nat, raw: string, depth: nat)
    requires StringBody(raw) && i + |raw| + 2 <= |b| && b[i..i + |raw| + 2] == "\"" + raw + "\""
    ensures NestEnd(b, i, depth) == NestEnd(b, i + |raw| + 2, depth)
  {
    hide CloseFrom, StringBody;
    QuotedAt(b, i, raw);
    CloseBody(b, i + 1, raw);
  }

  lemma QuotedAt(b: string, i: nat, raw: string)
    requires i + |raw| + 2 <= |b| && b[i..i + |raw| + 2] == "\"" + raw + "\""
    ensures b[i] == '"' && b[i + 1..i + 1 + |raw|] == raw && b[i + 1 + |raw|] == '"'
  {
    var w := b[i..i + |raw| + 2];
    assert w == "\"" + (raw + "\"");
    Slices(b, i, "\"", raw + "\"");
    Slices(b, i + 1, raw, "\"");
    assert b[i] == b[i..i + 1][0] && b[i + 1 + |raw|] == b[i + 1 + |raw|..i + 2 + |raw|][0];
  }

  lemma BlankNeutral(s: string)
    requires Blank(s)
    ensures Neutral(s)
  {}

  lemma NumberNeutral(n: Number)
    requires NumberOk(n)
    ensures Neutral(NumberText(n)) && NumberText(n) != "" && NoStop(NumberText(n))
  {
    assert forall c: char | Digit(c) :: !Stops(c);
    TailNeutral(n.frac, n.mark, n.exp);
    assert forall k | 0 <= k < |n.whole| :: Digit(n.whole[k]);
  }

  lemma TailNeutral(frac: string, mark: string, exp: string)
    requires Digits(frac) && Digits(exp) && (mark == "" || MarkOk(mark))
    ensures NoStop(Tail(frac, mark, exp)) && Neutral(Tail(frac, mark, exp))
  {
    assert forall k | 0 <= k < |frac| :: Digit(frac[k]);
    assert forall k | 0 <= k < |exp| :: Digit(exp[k]);
  }

  lemma LiteralNeutral(l: Literal)
    ensures Neutral(LiteralText(l)) && LiteralText(l) != "" && NoStop(LiteralText(l))
  {}

  function Within(v: Value): string
    requires v.Arr? || v.Obj?
  {
    if v.Arr? then (if v.items == [] then v.gap else ItemsText(v.items))
    else if v.members == [] then v.gap else MembersText(v.members)
  }

  lemma ContainerText(b: string, i: nat, v: Value)
    requires (v.Arr? || v.Obj?) && i + |Text(v)| <= |b| && b[i..i + |Text(v)|] == Text(v)
    ensures |Text(v)| == |Within(v)| + 2 && Opens(b[i]) && Closes(b[i + 1 + |Within(v)|])
    ensures b[i + 1..i + 1 + |Within(v)|] == Within(v)
  {
    hide ItemsText, MembersText;
    var open, close := if v.Arr? then "[" else "{", if v.Arr? then "]" else "}";
    assert Text(v) == open + Within(v) + close;
    assert Text(v) == open + (Within(v) + close);
    Slices(b, i, open, Within(v) + close);
    Slices(b, i + 1, Within(v), close);
    assert b[i] == b[i..i + 1][0] && b[i + 1 + |Within(v)|] == b[i + 1 + |Within(v)|..i + 2 + |Within(v)|][0];
  }

  /** A walk inside containers passes over a whole value. */
  lemma {:induction false} NestText(b: string, i: nat, v: Value, depth: nat)
    requires ValueOk(v) && depth >= 1 && i + |Text(v)| <= |b| && b[i..i + |Text(v)|] == Text(v)
    ensures NestEnd(b, i, depth) == NestEnd(b, i + |Text(v)|, depth)
    decreases v, 1
  {
    hide CloseFrom, NestEnd, NumberText, LiteralText, StringBody, NumberOk, Within, Neutral;
    match v {
      case Lit(l) =>
        LiteralNeutral(l);
        NestNeutral(b, i, LiteralText(l), depth);
      case Num(n) =>
        NumberNeutral(n);
        NestNeutral(b, i, NumberText(n), depth);
      case Str(raw) => NestString(b, i, raw, depth);
      case Arr(_, _) =>
        ContainerText(b, i, v);
        NestWithin(b, i + 1, v, depth + 1);
        NestBrackets(b, i, |Within(v)|, depth);
      case Obj(_, _) =>
        ContainerText(b, i, v);
        NestWithin(b, i + 1, v, depth + 1);
        NestBrackets(b, i, |Within(v)|, depth);
    }
  }

  lemma NestBrackets(b: string, i: nat, n: nat, depth: nat)
    requires i + n + 2 <= |b| && Opens(b[i]) && Closes(b[i + 1 + n])
    requires NestEnd(b, i + 1, depth + 1) == NestEnd(b, i + 1 + n, depth + 1)
    ensures NestEnd(b, i, depth) == if depth == 0 then Some(i + n + 2) else NestEnd(b, i + n + 2, depth)
  {
    hide CloseFrom;
  }

  lemma {:induction false} NestWithin(b: string, i: nat, v: Value, depth: nat)
    requires ValueOk(v) && (v.Arr? || v.Obj?) && depth >= 1
    requires i + |Within(v)| <= |b| && b[i..i + |Within(v)|] == Within(v)
    ensures NestEnd(b, i, depth) == NestEnd(b, i + |Within(v)|, depth)
    decreases v, 0
  {
    hide CloseFrom, NestEnd, ItemsText, MembersText, Neutral;
    match v {
      case Arr(gap, items) =>
        if items == [] {
          BlankNeutral(gap);
          NestNeutral(b, i, gap, depth);
        } else {
          NestItems(b, i, items, depth);
        }
      case Obj(gap, members) =>
        if members == [] {
          BlankNeutral(gap);
          NestNeutral(b, i, gap, depth);
        } else {
          NestMembers(b, i, members, depth);
        }
    }
  }

  lemma {:induction false} NestItems(b: string, i: nat, items: seq<Item>, depth: nat)
    requires items != [] && (forall it <- items :: ItemOk(it)) && depth >= 1
    requires i + |ItemsText(items)| <= |b| && b[i..i + |ItemsText(items)|] == ItemsText(items)
    ensures NestEnd(b, i, depth) == NestEnd(b, i + |ItemsText(items)|, depth)
    decreases items
  {
    hide CloseFrom, NestEnd, Neutral, Text, ItemsText;
    var it := items[0];
    assert ItemOk(it);
    var more := if |items| == 1 then "" else "," + ItemsText(items[1..]);
    ItemsMore(items);
    PiecesAt(b, i, it.pre, Text(it.value), it.post, more);
    BlankNeutral(it.pre);
    BlankNeutral(it.post);
    var k := i + |it.pre| + |Text(it.value)|;
    NestNeutral(b, i, it.pre, depth);
    NestText(b, i + |it.pre|, it.value, depth);
    NestNeutral(b, k, it.post, depth);
    if |items| > 1 {
      Slices(b, k + |it.post|, ",", ItemsText(items[1..]));
      assert Neutral(",") by { CommaNeutral(); }
      NestNeutral(b, k + |it.post|, ",", depth);
      NestItems(b, k + |it.post| + 1, items[1..], depth);
    }
  }

  lemma CommaNeutral()
    ensures Neutral(",") && Neutral(":")
  {}

  lemma ItemsMore(items: seq<Item>)
    requires items != []
    ensures ItemsText(items)
            == items[0].pre + Text(items[0].value) + items[0].post + if |items| == 1 then "" else "," + ItemsText(items[1..])
  {
    hide Text, ItemsText;
    ItemsUnfold(items);
    if |items| > 1 { RestJoin(ItemText(items[0]), ",", ItemsText(items[1..])); } else { NothingMore(ItemText(items[0])); }
  }

  lemma ItemsUnfold(items: seq<Item>)
    requires items != []
    ensures ItemsText(items) == if |items| == 1 then ItemText(items[0]) else ItemText(items[0]) + "," + ItemsText(items[1..])
  {
    hide ItemText;
  }

  lemma NothingMore(s: string)
    ensures s + "" == s
  {}

  lemma PiecesAt(b: string, i: nat, p: string, q: string, r: string, more: string)
    requires i + |p| + |q| + |r| + |more| <= |b| && b[i..i + |p| + |q| + |r| + |more|] == p + q + r + more
    ensures b[i..i + |p|] == p && b[i + |p|..i + |p| + |q|] == q
    ensures b[i + |p| + |q|..i + |p| + |q| + |r|] == r
    ensures b[i + |p| + |q| + |r|..i + |p| + |q| + |r| + |more|] == more
  {
    assert p + q + r + more == p + (q + (r + more));
    Slices(b, i, p, q + (r + more));
    Slices(b, i + |p|, q, r + more);
    Slices(b, i + |p| + |q|, r, more);
  }

  lemma HeadAt(b: string, i: nat, m: Member)
    requires i + |MemberHead(m)| <= |b| && b[i..i + |MemberHead(m)|] == MemberHead(m)
    ensures var q := i + |m.pre|; var k := q + |m.key| + 2;
            && b[i..q] == m.pre && b[q..k] == "\"" + m.key + "\""
            && b[k..k + |m.beforeColon|] == m.beforeColon && b[k + |m.beforeColon|] == ':'
            && k + |m.beforeColon| + 1 + |m.afterColon| == i + |MemberHead(m)|
            && b[k + |m.beforeColon| + 1..i + |MemberHead(m)|] == m.afterColon
  {
    var q, after := i + |m.pre|, ":" + m.afterColon;
    var k := q + |m.key| + 2;
    HeadParts(m);
    PiecesAt(b, i, m.pre, "\"" + m.key + "\"", m.beforeColon, after);
    Slices(b, k + |m.beforeColon|, ":", m.afterColon);
    assert b[k + |m.beforeColon|] == b[k + |m.beforeColon|..k + |m.beforeColon| + 1][0];
  }

  lemma HeadParts(m: Member)
    ensures MemberHead(m) == m.pre + ("\"" + m.key + "\"") + m.beforeColon + (":" + m.afterColon)
  {}

  lemma NestHead(b: string, i: nat, m: Member, depth: nat)
    requires MemberOk(m) && i + |MemberHead(m)| <= |b| && b[i..i + |MemberHead(m)|] == MemberHead(m)
    ensures NestEnd(b, i, depth) == NestEnd(b, i + |MemberHead(m)|, depth)
  {
    hide CloseFrom, NestEnd, Neutral, StringBody, MemberHead;
    HeadAt(b, i, m);
    BlankNeutral(m.pre);
    BlankNeutral(m.beforeColon);
    BlankNeutral(m.afterColon);
    CommaNeutral();
    var q := i + |m.pre|;
    var k := q + |m.key| + 2;
    NestNeutral(b, i, m.pre, depth);
    NestString(b, q, m.key, depth);
    NestNeutral(b, k, m.beforeColon, depth);
    var c := k + |m.beforeColon|;
    assert b[c..c + 1] == ":";
    NestNeutral(b, c, ":", depth);
    NestNeutral(b, c + 1, m.afterColon, depth);
  }

  lemma MembersMore(members: seq<Member>)
    requires members != []
    ensures MembersText(members)
            == MemberHead(members[0]) + Text(members[0].value) + members[0].post +
               if |members| == 1 then "" else "," + MembersText(members[1..])
  {
    hide Text, MemberHead, MembersText;
    MembersUnfold(members);
    if |members| > 1 { RestJoin(MemberText(members[0]), ",", MembersText(members[1..])); } else { NothingMore(MemberText(members[0])); }
  }

  lemma MembersUnfold(members: seq<Member>)
    requires members != []
    ensures MembersText(members)
            == if |members| == 1 then MemberText(members[0]) else MemberText(members[0]) + "," + MembersText(members[1..])
  {
    hide MemberText;
  }

  lemma {:induction false} NestMembers(b: string, i: nat, members: seq<Member>, depth: nat)
    requires members != [] && (forall m <- members :: MemberOk(m)) && depth >= 1
    requires i + |MembersText(members)| <= |b| && b[i..i + |MembersText(members)|] == MembersText(members)
    ensures NestEnd(b, i, depth) == NestEnd(b, i + |MembersText(members)|, depth)
    decreases members
  {
    hide CloseFrom, NestEnd, Neutral, Text, MemberHead, MembersText;
    var m := members[0];
    assert MemberOk(m);
    var more := if |members| == 1 then "" else "," + MembersText(members[1..]);
    MembersMore(members);
    PiecesAt(b, i, MemberHead(m), Text(m.value), m.post, more);
    BlankNeutral(m.post);
    var k := i + |MemberHead(m)| + |Text(m.value)|;
    NestHead(b, i, m, depth);
    NestText(b, i + |MemberHead(m)|, m.value, depth);
    NestNeutral(b, k, m.post, depth);
    if |members| > 1 {
      Slices(b, k + |m.post|, ",", MembersText(members[1..]));
      CommaNeutral();
      NestNeutral(b, k + |m.post|, ",", depth);
      NestMembers(b, k + |m.post| + 1, members[1..], depth);
    }
  }

  // ---------------------------------------------------------------- skip_value ends where the grammar does

  predicate NoStop(s: string) { forall k | 0 <= k < |s| :: !Stops(s[k]) }

  lemma {:induction false} ScalarText(b: string, i: nat, text: string)
    requires i + |text| <= |b| && b[i..i + |text|] == text && NoStop(text)
    requires i + |text| < |b| ==> Stops(b[i + |text|])
    ensures ScalarEnd(b, i) == i + |text|
    decreases |text|
  {
    hide Stops;
    if text != "" {
      assert b[i] == text[0];
      Slices(b, i, text[..1], text[1..]);
      ScalarText(b, i + 1, text[1..]);
    }
  }

  lemma ScalarAt(b: string, i: nat, text: string)
    requires i + |text| <= |b| && b[i..i + |text|] == text && text != "" && Neutral(text) && NoStop(text)
    requires i + |text| < |b| ==> Stops(b[i + |text|])
    ensures ValueEndFrom(b, i) == Some(i + |text|)
  {
    hide CloseFrom, NestEnd, Stops;
    assert b[i] == b[i..i + |text|][0];
    ScalarText(b, i, text);
  }

  /** A value followed by what may follow one, or by nothing, is skipped to exactly its end. */
  lemma SkipsValue(b: string, i: nat, v: Value)
    requires ValueOk(v) && i + |Text(v)| <= |b| && b[i..i + |Text(v)|] == Text(v)
    requires i + |Text(v)| < |b| ==> Stops(b[i + |Text(v)|])
    ensures ValueEndFrom(b, i) == Some(i + |Text(v)|)
  {
    hide CloseFrom, NumberText, LiteralText, StringBody, NumberOk, Within, Neutral, NestEnd, ScalarEnd, Stops, ItemsText, MembersText;
    match v {
      case Lit(l) =>
        LiteralNeutral(l);
        ScalarAt(b, i, LiteralText(l));
      case Num(n) =>
        NumberNeutral(n);
        ScalarAt(b, i, NumberText(n));
      case Str(raw) =>
        QuotedAt(b, i, raw);
        CloseBody(b, i + 1, raw);
      case Arr(_, _) => SkipsContainer(b, i, v);
      case Obj(_, _) => SkipsContainer(b, i, v);
    }
  }

  lemma SkipsContainer(b: string, i: nat, v: Value)
    requires ValueOk(v) && (v.Arr? || v.Obj?) && i + |Text(v)| <= |b| && b[i..i + |Text(v)|] == Text(v)
    ensures ValueEndFrom(b, i) == Some(i + |Text(v)|)
  {
    hide CloseFrom, Within, NestEnd, Text, ValueOk;
    ContainerText(b, i, v);
    NestWithin(b, i + 1, v, 1);
    NestBrackets(b, i, |Within(v)|, 0);
  }
}
