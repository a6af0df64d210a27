/** Where in a JSON text a scan stands: the part of a tree that the bytes read so far write. Every
    prefix the automaton has not refused is the text of such a part, byte by byte.
 */
module ScanPlaces {
  import opened Json
  import opened JsonStrings
  import opened Automaton
  import Splicing

  // ---------------------------------------------------------------- parts of a tree

  /** A container still open, up to the value inside it that is due or open too. `m` is up to its value. */
  datatype Frame =
    | InList(items: seq<Item>, pre: string)
    | InMap(members: seq<Member>, m: Member)

  /** What stands in the innermost of them, or at the root. */
  datatype Tail =
    | Wait                                                    // a value is due
    | FirstItem(gap: string)
    | KeyDue(members: seq<Member>, pre: string)
    | InKey(members: seq<Member>, pre: string, word: string)
    | AfterKey(members: seq<Member>, m: Member)
    | AfterMember(members: seq<Member>, last: Member)
    | AfterItem(items: seq<Item>, it: Item)
    | InText(raw: string)
    | InWord(literal: Literal, read: nat)
    | InNumber(st: St, number: Number)
    | Whole(value: Value, post: string)

  datatype Place = Place(lead: string, frames: seq<Frame>, tail: Tail)

  // ---------------------------------------------------------------- their text

  /** Each with the comma after it. */
  function ItemRun(items: seq<Item>): string {
    if items == [] then "" else ItemRun(items[..|items| - 1]) + ItemText(items[|items| - 1]) + ","
  }

  function MemberRun(members: seq<Member>): string {
    if members == [] then "" else MemberRun(members[..|members| - 1]) + MemberText(members[|members| - 1]) + ","
  }

  function KeyHead(m: Member): string { m.pre + "\"" + m.key + "\"" + m.beforeColon }

  function FrameText(f: Frame): string {
    match f
    case InList(items, pre) => "[" + ItemRun(items) + pre
    case InMap(members, m) => "{" + MemberRun(members) + (KeyHead(m) + ":" + m.afterColon)
  }

  function FramesText(fs: seq<Frame>): string {
    if fs == [] then "" else FramesText(fs[..|fs| - 1]) + FrameText(fs[|fs| - 1])
  }

  function PartText(st: St, n: Number): string {
    (if n.minus then "-" else "") + n.whole + (if st.NumDot? then "." else Fraction(n.frac)) + n.mark + n.exp
  }

  function TailText(t: Tail): string {
    match t
    case Wait => ""
    case FirstItem(gap) => "[" + gap
    case KeyDue(members, pre) => "{" + MemberRun(members) + pre
    case InKey(members, pre, word) => "{" + MemberRun(members) + pre + "\"" + word
    case AfterKey(members, m) => "{" + MemberRun(members) + KeyHead(m)
    case AfterMember(members, last) => "{" + MemberRun(members) + MemberText(last)
    case AfterItem(items, last) => "[" + ItemRun(items) + ItemText(last)
    case InText(raw) => "\"" + raw
    case InWord(l, read) => if read <= |LiteralText(l)| then LiteralText(l)[..read] else ""
    case InNumber(st, n) => PartText(st, n)
    case Whole(v, post) => Text(v) + post
  }

  function PlaceText(p: Place): string { p.lead + FramesText(p.frames) + TailText(p.tail) }

  // ---------------------------------------------------------------- well-formed parts

  predicate HeadOk(m: Member) { Blank(m.pre) && StringBody(m.key) && Blank(m.beforeColon) }

  predicate ItemsOk(items: seq<Item>) { forall it <- items :: ItemOk(it) }

  predicate MembersOk(members: seq<Member>) { forall m <- members :: MemberOk(m) }

  predicate FrameOk(f: Frame) {
    match f
    case InList(items, pre) => ItemsOk(items) && Blank(pre)
    case InMap(members, m) => MembersOk(members) && HeadOk(m) && Blank(m.afterColon)
  }

  /** String contents, perhaps in the middle of an escape. */
  predicate PartOfBody(st: St, raw: string) {
    match st
    case InStr(_) => StringBody(raw)
    case StrEsc(_) => |raw| >= 1 && raw[|raw| - 1] == '\\' && StringBody(raw[..|raw| - 1])
    case StrHex(_, n) =>
      && n < 4 && |raw| >= n + 2 && raw[|raw| - n - 2] == '\\' && raw[|raw| - n - 1] == 'u'
      && (forall k | |raw| - n <= k < |raw| :: Hex(raw[k])) && StringBody(raw[..|raw| - n - 2])
    case _ => false
  }

  predicate WholeOk(w: string) { w != "" && Digits(w) && (w[0] == '0' ==> w == "0") }

  predicate PartOfNumber(st: St, n: Number) {
    match st
    case NumSign => n == Number(true, "", "", "", "")
    case NumZero => n.whole == "0" && n.frac == "" && n.mark == "" && n.exp == ""
    case NumInt => WholeOk(n.whole) && n.whole[0] != '0' && n.frac == "" && n.mark == "" && n.exp == ""
    case NumDot => WholeOk(n.whole) && n.frac == "" && n.mark == "" && n.exp == ""
    case NumFrac => WholeOk(n.whole) && n.frac != "" && Digits(n.frac) && n.mark == "" && n.exp == ""
    case NumE => WholeOk(n.whole) && Digits(n.frac) && MarkOk(n.mark) && |n.mark| == 1 && n.exp == ""
    case NumESign => WholeOk(n.whole) && Digits(n.frac) && MarkOk(n.mark) && |n.mark| == 2 && n.exp == ""
    case NumExp => WholeOk(n.whole) && Digits(n.frac) && MarkOk(n.mark) && n.exp != "" && Digits(n.exp)
    case _ => false
  }

  /** The state of the automaton at this place, its key so far included. */
  predicate TailAt(st: St, word: string, t: Tail) {
    match t
    case Wait => st.Due?
    case FirstItem(gap) => st.ArrFirst? && Blank(gap)
    case KeyDue(members, pre) => (if members == [] then st.ObjFirst? else st.ObjKey?) && MembersOk(members) && Blank(pre)
    case InKey(members, pre, w) =>
      (st.InStr? || st.StrEsc? || st.StrHex?) && st.key && word == w && MembersOk(members) && Blank(pre) && PartOfBody(st, w)
    case AfterKey(members, m) => st.Colon? && MembersOk(members) && HeadOk(m)
    case AfterMember(members, last) => st.ObjNext? && MembersOk(members) && MemberOk(last)
    case AfterItem(items, last) => st.ArrNext? && ItemsOk(items) && ItemOk(last)
    case InText(raw) => (st.InStr? || st.StrEsc? || st.StrHex?) && !st.key && PartOfBody(st, raw)
    case InWord(l, read) => st == InLit(l, read) && 0 < read < |LiteralText(l)|
    case InNumber(nst, n) => st == nst && PartOfNumber(nst, n)
    case Whole(v, post) => st.End? && ValueOk(v) && Blank(post)
  }

  function Kinds(fs: seq<Frame>): (r: seq<Kind>)
    ensures |r| == |fs|
  {
    seq(|fs|, k requires 0 <= k < |fs| => if fs[k].InMap? then InObj else InArr)
  }

  function Inner(t: Tail): seq<Kind> {
    if t.KeyDue? || t.InKey? || t.AfterKey? || t.AfterMember? then [InObj]
    else if t.FirstItem? || t.AfterItem? then [InArr] else []
  }

  /** The automaton stands at this place. */
  predicate StandsAt(s: Scan, p: Place) {
    && Blank(p.lead) && (forall f <- p.frames :: FrameOk(f))
    && s.stack == Kinds(p.frames) + Inner(p.tail) && TailAt(s.st, s.word, p.tail)
    && (p.tail.Whole? ==> p.frames == [])
  }

  // ---------------------------------------------------------------- the place after a byte

  /** A value has closed. */
  function Closed(p: Place, v: Value): Place {
    if p.frames == [] then p.(tail := Whole(v, ""))
    else
      var fs, f := p.frames[..|p.frames| - 1], p.frames[|p.frames| - 1];
      match f
      case InList(items, pre) => Place(p.lead, fs, AfterItem(items, Item(pre, v, "")))
      case InMap(members, m) => Place(p.lead, fs, AfterMember(members, m.(value := v, post := "")))
  }

  function Blanked(f: Frame, c: char): Frame {
    match f
    case InList(items, pre) => InList(items, pre + [c])
    case InMap(members, m) => InMap(members, m.(afterColon := m.afterColon + [c]))
  }

  function AddBlank(p: Place, c: char): Place {
    match p.tail
    case Wait =>
      if p.frames == [] then p.(lead := p.lead + [c])
      else p.(frames := p.frames[..|p.frames| - 1] + [Blanked(p.frames[|p.frames| - 1], c)])
    case FirstItem(gap) => p.(tail := FirstItem(gap + [c]))
    case KeyDue(members, pre) => p.(tail := KeyDue(members, pre + [c]))
    case AfterKey(members, m) => p.(tail := AfterKey(members, m.(beforeColon := m.beforeColon + [c])))
    case AfterMember(members, last) => p.(tail := AfterMember(members, last.(post := last.post + [c])))
    case AfterItem(items, last) => p.(tail := AfterItem(items, last.(post := last.post + [c])))
    case Whole(v, post) => p.(tail := Whole(v, post + [c]))
    case _ => p
  }

  /** A value's first byte. */
  function Started(c: char): Tail {
    if c == '"' then InText("")
    else if c == '[' then FirstItem("")
    else if c == '{' then KeyDue([], "")
    else if c == 't' then InWord(True, 1)
    else if c == 'f' then InWord(False, 1)
    else if c == 'n' then InWord(Null, 1)
    else if c == '-' then InNumber(NumSign, Number(true, "", "", "", ""))
    else if c == '0' then InNumber(NumZero, Number(false, "0", "", "", ""))
    else InNumber(NumInt, Number(false, [c], "", "", ""))
  }

  /** A byte between values. */
  function Between1(p: Place, c: char): Place {
    if Ws(c) then AddBlank(p, c)
    else
      match p.tail
      case Wait => p.(tail := Started(c))
      case FirstItem(gap) =>
        if c == ']' then Closed(p, Arr(gap, [])) else Place(p.lead, p.frames + [InList([], gap)], Started(c))
      case KeyDue(members, pre) => if c == '}' then Closed(p, Obj(pre, [])) else p.(tail := InKey(members, pre, ""))
      case AfterKey(members, m) => Place(p.lead, p.frames + [InMap(members, m.(afterColon := ""))], Wait)
      case AfterMember(members, last) =>
        if c == ',' then p.(tail := KeyDue(members + [last], "")) else Closed(p, Obj("", members + [last]))
      case AfterItem(items, last) =>
        if c == ',' then Place(p.lead, p.frames + [InList(items + [last], "")], Wait) else Closed(p, Arr("", items + [last]))
      case _ => p
  }

  /** The byte goes on with the number. */
  predicate GoesOn(st: St, c: char) {
    match st
    case NumZero => c == '.' || c == 'e' || c == 'E'
    case NumInt => Digit(c) || c == '.' || c == 'e' || c == 'E'
    case NumFrac => Digit(c) || c == 'e' || c == 'E'
    case NumExp => Digit(c)
    case _ => true
  }

  function NumberMore(st: St, n: Number, c: char): Tail {
    match st
    case NumSign => if c == '0' then InNumber(NumZero, n.(whole := "0")) else InNumber(NumInt, n.(whole := [c]))
    case NumZero => if c == '.' then InNumber(NumDot, n) else InNumber(NumE, n.(mark := [c]))
    case NumInt =>
      if c == '.' then InNumber(NumDot, n)
      else if c == 'e' || c == 'E' then InNumber(NumE, n.(mark := [c])) else InNumber(NumInt, n.(whole := n.whole + [c]))
    case NumDot => InNumber(NumFrac, n.(frac := [c]))
    case NumFrac =>
      if c == 'e' || c == 'E' then InNumber(NumE, n.(mark := [c])) else InNumber(NumFrac, n.(frac := n.frac + [c]))
    case NumE => if c == '+' || c == '-' then InNumber(NumESign, n.(mark := n.mark + [c])) else InNumber(NumExp, n.(exp := [c]))
    case NumESign => InNumber(NumExp, n.(exp := [c]))
    case _ => InNumber(NumExp, n.(exp := n.exp + [c]))
  }

  /** Whether the byte is the closing quote: not after an open escape. */
  function Onward(p: Place, st: St, c: char): Place {
    match p.tail
    case InKey(members, pre, word) =>
      if st.InStr? && c == '"' then p.(tail := AfterKey(members, Member(pre, word, "", "", Lit(Null), "")))
      else p.(tail := InKey(members, pre, word + [c]))
    case InText(raw) => if st.InStr? && c == '"' then Closed(p, Str(raw)) else p.(tail := InText(raw + [c]))
    case InWord(l, read) => if read + 1 == |LiteralText(l)| then Closed(p, Lit(l)) else p.(tail := InWord(l, read + 1))
    case InNumber(nst, n) => if GoesOn(nst, c) then p.(tail := NumberMore(nst, n, c)) else Between1(Closed(p, Num(n)), c)
    case _ => Between1(p, c)
  }

  // ---------------------------------------------------------------- its text is one byte longer

  lemma Joined(a: string, b: string, x: string, c: char)
    ensures a + b + (x + [c]) == a + b + x + [c]
  {}

  lemma FramesMore(fs: seq<Frame>, f: Frame)
    ensures FramesText(fs + [f]) == FramesText(fs) + FrameText(f)
  {
    hide FrameText;
    assert (fs + [f])[..|fs|] == fs;
  }

  lemma MembersMore(members: seq<Member>, m: Member)
    ensures MemberRun(members + [m]) == MemberRun(members) + MemberText(m) + ","
  {
    hide MemberText;
    assert (members + [m])[..|members|] == members;
  }

  lemma ItemsMore(items: seq<Item>, it: Item)
    ensures ItemRun(items + [it]) == ItemRun(items) + ItemText(it) + ","
  {
    hide ItemText;
    assert (items + [it])[..|items|] == items;
  }

  lemma {:induction false} AllMembers(members: seq<Member>, last: Member)
    ensures MembersText(members + [last]) == MemberRun(members) + MemberText(last)
    decreases |members|
  {
    hide MemberText;
    if members == [] {
      assert members + [last] == [last];
    } else {
      var front, m := members[..|members| - 1], members[|members| - 1];
      assert members == front + [m];
      AllMembers(front, m);
      Splicing.MembersTextSnoc(members, last);
    }
  }

  lemma {:induction false} ItemsSnoc(items: seq<Item>, it: Item)
    ensures ItemsText(items + [it]) == if items == [] then ItemText(it) else ItemsText(items) + "," + ItemText(it)
    decreases |items|
  {
    hide ItemText;
    if |items| >= 1 {
      assert (items + [it])[1..] == items[1..] + [it];
      ItemsSnoc(items[1..], it);
    }
  }

  lemma {:induction false} AllItems(items: seq<Item>, last: Item)
    ensures ItemsText(items + [last]) == ItemRun(items) + ItemText(last)
    decreases |items|
  {
    hide ItemText;
    if items == [] {
      assert items + [last] == [last];
    } else {
      var front, it := items[..|items| - 1], items[|items| - 1];
      assert items == front + [it];
      AllItems(front, it);
      ItemsSnoc(items, last);
    }
  }

  /** A closed value's text stands where the open one's did. */
  lemma ClosedText(p: Place, v: Value)
    ensures PlaceText(Closed(p, v)) == p.lead + FramesText(p.frames) + Text(v)
  {
    hide Text, ItemRun, MemberRun, FramesText;
    if p.frames == [] {
      assert Text(v) + "" == Text(v);
    } else {
      var fs, f := p.frames[..|p.frames| - 1], p.frames[|p.frames| - 1];
      assert p.frames == fs + [f];
      FramesMore(fs, f);
      FrameCloses(f, v);
      Regroup(p.lead, FramesText(fs), FrameText(f), Text(v));
    }
  }

  lemma Regroup(a: string, b: string, c: string, d: string)
    ensures a + (b + c) + d == a + b + (c + d)
  {}

  lemma FrameCloses(f: Frame, v: Value)
    ensures f.InList? ==> FrameText(f) + Text(v) == "[" + ItemRun(f.items) + ItemText(Item(f.pre, v, ""))
    ensures f.InMap? ==> FrameText(f) + Text(v) == "{" + MemberRun(f.members) + MemberText(f.m.(value := v, post := ""))
  {
    hide Text, ItemRun, MemberRun;
    match f {
      case InList(items, pre) => ItemCloses(ItemRun(items), pre, Text(v));
      case InMap(members, m) => MemberCloses(MemberRun(members), m, v);
    }
  }

  lemma ItemCloses(a: string, pre: string, t: string)
    ensures "[" + a + pre + t == "[" + a + (pre + t + "")
  {}

  lemma MemberCloses(a: string, m: Member, v: Value)
    ensures "{" + a + (KeyHead(m) + ":" + m.afterColon) + Text(v) == "{" + a + MemberText(m.(value := v, post := ""))
  {
    hide Text;
    var w := m.(value := v, post := "");
    assert MemberHead(w) == KeyHead(m) + ":" + m.afterColon;
    assert MemberText(w) == MemberHead(w) + Text(v) + "" == MemberHead(w) + Text(v);
    Regroup("{" + a, "", MemberHead(w), Text(v));
    assert "{" + a + MemberHead(w) + Text(v) == "{" + a + (MemberHead(w) + Text(v));
  }

  /** A container's last byte. */
  lemma ListCloses(items: seq<Item>, last: Item)
    ensures Text(Arr("", items + [last])) == "[" + ItemRun(items) + ItemText(last) + "]"
  {
    hide ItemRun, ItemText, ItemsText;
    AllItems(items, last);
  }

  lemma MapCloses(members: seq<Member>, last: Member)
    ensures Text(Obj("", members + [last])) == "{" + MemberRun(members) + MemberText(last) + "}"
  {
    hide MemberRun, MemberText, MembersText;
    AllMembers(members, last);
  }

  lemma BlankText(p: Place, c: char)
    requires !p.tail.InKey? && !p.tail.InText? && !p.tail.InWord? && !p.tail.InNumber?
    ensures PlaceText(AddBlank(p, c)) == PlaceText(p) + [c]
  {
    hide ItemRun, MemberRun, FramesText, Text;
    match p.tail {
      case Wait =>
        if p.frames == [] {
          assert FramesText([]) == "" by { NoFrames(); }
        } else {
          var fs, f := p.frames[..|p.frames| - 1], p.frames[|p.frames| - 1];
          assert p.frames == fs + [f];
          FramesMore(fs, f);
          FramesMore(fs, Blanked(f, c));
          FrameBlank(f, c);
        }
      case AfterMember(members, last) =>
        MemberBlank(last, c);
        Joined("{", MemberRun(members), MemberText(last), c);
      case AfterItem(items, last) =>
        assert ItemText(last.(post := last.post + [c])) == ItemText(last) + [c];
        Joined("[", ItemRun(items), ItemText(last), c);
      case KeyDue(members, pre) => Joined("{", MemberRun(members), pre, c);
      case AfterKey(members, m) =>
        assert KeyHead(m.(beforeColon := m.beforeColon + [c])) == KeyHead(m) + [c];
        Joined("{", MemberRun(members), KeyHead(m), c);
      case _ =>
    }
  }

  lemma NoFrames()
    ensures FramesText([]) == ""
  {}

  lemma MemberBlank(m: Member, c: char)
    ensures MemberText(m.(post := m.post + [c])) == MemberText(m) + [c]
  {
    hide Text;
    assert MemberHead(m.(post := m.post + [c])) == MemberHead(m);
    Joined(MemberHead(m), Text(m.value), m.post, c);
  }

  lemma FrameBlank(f: Frame, c: char)
    ensures FrameText(Blanked(f, c)) == FrameText(f) + [c]
  {
    hide ItemRun, MemberRun;
    match f {
      case InList(items, pre) => Joined("[", ItemRun(items), pre, c);
      case InMap(members, m) =>
        var n := m.(afterColon := m.afterColon + [c]);
        assert KeyHead(n) == KeyHead(m);
        assert KeyHead(n) + ":" + n.afterColon == (KeyHead(m) + ":" + m.afterColon) + [c];
        Joined("{", MemberRun(members), KeyHead(m) + ":" + m.afterColon, c);
    }
  }

  // ---------------------------------------------------------------- a value begins

  predicate Starts(c: char) {
    c == '"' || c == '[' || c == '{' || c == 't' || c == 'f' || c == 'n' || c == '-' || Digit(c)
  }

  lemma StartedText(c: char)
    requires Starts(c)
    ensures TailText(Started(c)) == [c]
  {
    assert LiteralText(True)[..1] == "t" && LiteralText(False)[..1] == "f" && LiteralText(Null)[..1] == "n";
    assert "" + [c] + "" + "" + "" == [c];
  }

  lemma BeginsStarts(cfg: Config, s: Scan, i: nat, c: char)
    requires Alive(Begin(cfg, s, i, c))
    ensures Starts(c) && Begin(cfg, s, i, c).word == s.word
    ensures Begin(cfg, s, i, c).stack == s.stack + Inner(Started(c))
    ensures TailAt(Begin(cfg, s, i, c).st, s.word, Started(c))
  {
    hide StartValue, Enter;
    assert s.stack + [] == s.stack;
  }

  lemma FramesStand(fs: seq<Frame>, f: Frame)
    ensures Kinds(fs + [f]) == Kinds(fs) + [if f.InMap? then InObj else InArr]
  {}

  lemma BeginStands(cfg: Config, s: Scan, i: nat, c: char, p: Place)
    requires StandsAt(s, p) && Alive(Begin(cfg, s, i, c)) && !Ws(c) && (p.tail.Wait? || (p.tail.FirstItem? && c != ']'))
    ensures StandsAt(Begin(cfg, s, i, c), Between1(p, c)) && PlaceText(Between1(p, c)) == PlaceText(p) + [c]
  {
    hide Begin, FrameOk, Started, TailText, FramesText, ItemRun;
    BeginsStarts(cfg, s, i, c);
    StartedText(c);
    StartedTail(c);
    assert Kinds(p.frames) + [] == Kinds(p.frames);
    if p.tail.Wait? {
      assert TailText(Wait) == "" by { WaitText(""); }
      assert PlaceText(p) == p.lead + FramesText(p.frames) by { NoMore(p.lead + FramesText(p.frames)); }
    } else {
      var f := InList([], p.tail.gap);
      FramesStand(p.frames, f);
      FramesMore(p.frames, f);
      WaitText(p.tail.gap);
      EmptyFrame(p.tail.gap);
      assert forall g <- p.frames + [f] :: FrameOk(g);
      Regroup(p.lead, FramesText(p.frames), FrameText(f), [c]);
      Joined(p.lead, FramesText(p.frames), FrameText(f), c);
    }
  }

  lemma NoMore(a: string)
    ensures a + "" == a
  {}

  lemma WaitText(gap: string)
    ensures TailText(Wait) == "" && TailText(FirstItem(gap)) == "[" + gap
  {}

  lemma EmptyFrame(gap: string)
    requires Blank(gap)
    ensures FrameText(InList([], gap)) == "[" + gap && FrameOk(InList([], gap))
  {
    assert "[" + "" + gap == "[" + gap;
  }

  lemma StartedTail(c: char)
    ensures var t := Started(c); !t.Whole? && !t.Wait?
  {}

  // ---------------------------------------------------------------- a value closes

  lemma ClosedStands(cfg: Config, s: Scan, end: nat, p: Place, v: Value)
    requires Blank(p.lead) && (forall f <- p.frames :: FrameOk(f)) && s.stack == Kinds(p.frames) && ValueOk(v)
    ensures StandsAt(ValueDone(cfg, s, end), Closed(p, v))
  {
    hide Settle, ValueOk, StringBody;
    var t := ValueDone(cfg, s, end);
    if p.frames != [] {
      var fs, f := p.frames[..|p.frames| - 1], p.frames[|p.frames| - 1];
      assert p.frames == fs + [f];
      FramesStand(fs, f);
      assert FrameOk(f);
      ClosedOk(f, v);
    }
  }

  lemma ClosedOk(f: Frame, v: Value)
    requires FrameOk(f) && ValueOk(v)
    ensures f.InList? ==> ItemOk(Item(f.pre, v, ""))
    ensures f.InMap? ==> MemberOk(f.m.(value := v, post := ""))
  {}

  lemma ContainerCloses(cfg: Config, s: Scan, i: nat, p: Place, v: Value)
    requires Blank(p.lead) && (forall f <- p.frames :: FrameOk(f)) && ValueOk(v)
    requires s.stack == Kinds(p.frames) + Inner(p.tail) && |Inner(p.tail)| == 1
    requires Text(v) == TailText(p.tail) + [if v.Arr? then ']' else '}']
    ensures StandsAt(CloseContainer(cfg, s, i), Closed(p, v))
    ensures PlaceText(Closed(p, v)) == PlaceText(p) + [if v.Arr? then ']' else '}']
  {
    hide Closed, Text, TailText, FrameOk, Inner, ValueOk, LeaveOptions, FramesText, ValueDone, StandsAt;
    var stack := s.stack[..|s.stack| - 1];
    assert stack == Kinds(p.frames);
    ClosedStands(cfg, s.(stack := stack, core := LeaveOptions(s.core, |stack|)), i + 1, p, v);
    ClosedText(p, v);
    Joined(p.lead, FramesText(p.frames), TailText(p.tail), if v.Arr? then ']' else '}');
  }

  // ---------------------------------------------------------------- bytes between values

  lemma BlankStands(s: Scan, p: Place, c: char)
    requires StandsAt(s, p) && Between(s.st) && Ws(c)
    ensures StandsAt(s, AddBlank(p, c)) && PlaceText(AddBlank(p, c)) == PlaceText(p) + [c]
  {
    hide Text, ValueOk, StringBody, PlaceText;
    BlankText(p, c);
    if p.tail.Wait? && p.frames != [] {
      var fs, f := p.frames[..|p.frames| - 1], p.frames[|p.frames| - 1];
      assert p.frames == fs + [f] && FrameOk(f);
      FramesStand(fs, f);
      FramesStand(fs, Blanked(f, c));
    }
  }

  lemma ListEnds(cfg: Config, s: Scan, i: nat, p: Place)
    requires StandsAt(s, p) && (p.tail.FirstItem? || p.tail.AfterItem?)
    ensures StandsAt(CloseContainer(cfg, s, i), Between1(p, ']')) && PlaceText(Between1(p, ']')) == PlaceText(p) + [']']
  {
    hide Closed, Text, FrameOk, FramesText, CloseContainer, PlaceText, ItemRun;
    match p.tail {
      case FirstItem(gap) =>
        EmptyText(gap);
        ContainerCloses(cfg, s, i, p, Arr(gap, []));
      case AfterItem(items, it) =>
        ListCloses(items, it);
        ListOk(items, it);
        ContainerCloses(cfg, s, i, p, Arr("", items + [it]));
    }
  }

  lemma EmptyText(gap: string)
    ensures Text(Arr(gap, [])) == "[" + gap + "]" && Text(Obj(gap, [])) == "{" + "" + gap + "}"
  {}

  lemma ListOk(items: seq<Item>, it: Item)
    requires ItemsOk(items) && ItemOk(it)
    ensures ValueOk(Arr("", items + [it])) && ItemsOk(items + [it])
  {}

  lemma MapOk(members: seq<Member>, m: Member)
    requires MembersOk(members) && MemberOk(m)
    ensures ValueOk(Obj("", members + [m])) && MembersOk(members + [m])
  {}

  lemma MapEnds(cfg: Config, s: Scan, i: nat, p: Place)
    requires StandsAt(s, p) && ((p.tail.KeyDue? && p.tail.members == []) || p.tail.AfterMember?)
    ensures StandsAt(CloseContainer(cfg, s, i), Between1(p, '}')) && PlaceText(Between1(p, '}')) == PlaceText(p) + ['}']
  {
    hide Closed, Text, FrameOk, FramesText, CloseContainer, PlaceText;
    match p.tail {
      case KeyDue(members, pre) =>
        EmptyText(pre);
        ContainerCloses(cfg, s, i, p, Obj(pre, []));
      case AfterMember(members, last) =>
        MapCloses(members, last);
        MapOk(members, last);
        ContainerCloses(cfg, s, i, p, Obj("", members + [last]));
    }
  }

  lemma CommaStands(s: Scan, p: Place, core: Core)
    requires StandsAt(s, p) && (p.tail.AfterMember? || p.tail.AfterItem?)
    ensures StandsAt(s.(st := if p.tail.AfterMember? then ObjKey else Due, core := core), Between1(p, ','))
    ensures PlaceText(Between1(p, ',')) == PlaceText(p) + [',']
  {
    hide Text, ValueOk, FramesText, ItemText, MemberText, FrameOk;
    match p.tail {
      case AfterMember(members, last) =>
        MapOk(members, last);
        MembersMore(members, last);
        Commas("{", MemberRun(members), MemberText(last), p.lead + FramesText(p.frames));
      case AfterItem(items, it) =>
        var f := InList(items + [it], "");
        ListOk(items, it);
        ItemsMore(items, it);
        FramesStand(p.frames, f);
        FramesMore(p.frames, f);
        assert FrameOk(f) by { ListFrame(items + [it]); }
        assert forall g <- p.frames + [f] :: FrameOk(g);
        Commas("[", ItemRun(items), ItemText(it), p.lead + FramesText(p.frames));
        Regroup(p.lead, FramesText(p.frames), FrameText(f), "");
    }
  }

  lemma ListFrame(items: seq<Item>)
    requires ItemsOk(items)
    ensures FrameOk(InList(items, "")) && FrameText(InList(items, "")) == "[" + ItemRun(items) + ""
  {}

  lemma Commas(open: string, run: string, last: string, before: string)
    ensures before + (open + (run + last + ",") + "") == before + (open + run + last) + [',']
    ensures before + (open + (run + last + ",")) == before + (open + run + last) + [',']
  {}

  lemma KeyOpens(s: Scan, p: Place, core: Core)
    requires StandsAt(s, p) && p.tail.KeyDue?
    ensures StandsAt(s.(st := InStr(true), word := "", core := core), Between1(p, '"'))
    ensures PlaceText(Between1(p, '"')) == PlaceText(p) + ['"']
  {
    hide FramesText, MemberText, FrameOk, MemberRun;
    var KeyDue(members, pre) := p.tail;
    assert StringBody("");
    assert "{" + MemberRun(members) + pre + "\"" + "" == ("{" + MemberRun(members) + pre) + ['"'];
    Joined(p.lead, FramesText(p.frames), "{" + MemberRun(members) + pre, '"');
  }

  lemma ColonStands(s: Scan, p: Place)
    requires StandsAt(s, p) && p.tail.AfterKey?
    ensures StandsAt(s.(st := Due), Between1(p, ':')) && PlaceText(Between1(p, ':')) == PlaceText(p) + [':']
  {
    hide FramesText, MemberText, MemberRun, KeyHead;
    var AfterKey(members, m) := p.tail;
    var f := InMap(members, m.(afterColon := ""));
    FramesStand(p.frames, f);
    FramesMore(p.frames, f);
    assert FrameOk(f);
    assert forall g <- p.frames + [f] :: FrameOk(g);
    HeadSame(m);
    ColonText(p.lead, FramesText(p.frames), "{" + MemberRun(members), KeyHead(m));
  }

  lemma HeadSame(m: Member)
    ensures KeyHead(m.(afterColon := "")) == KeyHead(m)
  {}

  lemma ColonText(a: string, b: string, open: string, head: string)
    ensures a + (b + (open + (head + ":" + ""))) + "" == a + b + (open + head) + [':']
  {}

  /** What the state says of the tail. */
  lemma StandsKind(s: Scan, p: Place)
    requires StandsAt(s, p)
    ensures s.st.Due? <==> p.tail.Wait?
    ensures s.st.ArrFirst? <==> p.tail.FirstItem?
    ensures s.st.ObjFirst? || s.st.ObjKey? <==> p.tail.KeyDue?
    ensures p.tail.KeyDue? ==> (s.st.ObjFirst? <==> p.tail.members == [])
    ensures s.st.Colon? <==> p.tail.AfterKey?
    ensures s.st.ObjNext? <==> p.tail.AfterMember?
    ensures s.st.ArrNext? <==> p.tail.AfterItem?
    ensures s.st.End? <==> p.tail.Whole?
    ensures (s.st.InStr? || s.st.StrEsc? || s.st.StrHex?) && s.st.key <==> p.tail.InKey?
    ensures (s.st.InStr? || s.st.StrEsc? || s.st.StrHex?) && !s.st.key <==> p.tail.InText?
    ensures s.st.InLit? <==> p.tail.InWord?
    ensures Inner(p.tail) != [] ==> s.stack != []
  {
    hide FrameOk, StringBody, ValueOk, MarkOk;
  }

  /** Every byte between values that is not refused. */
  lemma PunctStands(cfg: Config, s: Scan, i: nat, c: char, p: Place)
    requires StandsAt(s, p) && Between(s.st) && Alive(s) && Alive(Punct(cfg, s, i, c))
    ensures StandsAt(Punct(cfg, s, i, c), Between1(p, c)) && PlaceText(Between1(p, c)) == PlaceText(p) + [c]
  {
    if Ws(c) {
      BlankStands(s, p, c);
      assert Between1(p, c) == AddBlank(p, c);
      return;
    }
    StandsKind(s, p);
    hide StandsAt, Between1, PlaceText, FramesText, TailText, CloseContainer, Begin, HoldComma, HoldKey, FrameOk, PartOfBody, PartOfNumber;
    match p.tail {
      case Wait => BeginStands(cfg, s, i, c, p);
      case FirstItem(gap) => if c == ']' { ListEnds(cfg, s, i, p); } else { BeginStands(cfg, s, i, c, p); }
      case KeyDue(members, pre) =>
        if c == '}' { MapEnds(cfg, s, i, p); } else { KeyOpens(s, p, HoldKey(s.core, |s.stack|, i)); }
      case AfterKey(members, m) => ColonStands(s, p);
      case AfterMember(members, last) =>
        if c == ',' { CommaStands(s, p, HoldComma(cfg, s.core, |s.stack|, i)); } else { MapEnds(cfg, s, i, p); }
      case AfterItem(items, it) => if c == ',' { CommaStands(s, p, s.core); } else { ListEnds(cfg, s, i, p); }
      case _ =>
    }
  }

  // ---------------------------------------------------------------- strings

  /** The state inside a string after a byte that does not close it. */
  function StringState(st: St, c: char): St
    requires st.InStr? || st.StrEsc? || st.StrHex?
  {
    match st
    case InStr(key) => if c == '\\' then StrEsc(key) else st
    case StrEsc(key) => if c == 'u' then StrHex(key, 0) else InStr(key)
    case StrHex(key, n) => if n + 1 == 4 then InStr(key) else StrHex(key, n + 1)
  }

  predicate StringTakes(st: St, c: char)
    requires st.InStr? || st.StrEsc? || st.StrHex?
  {
    match st
    case InStr(_) => c != '"' && c >= ' '
    case StrEsc(_) => c == 'u' || ShortEscape(c)
    case StrHex(_, _) => Hex(c)
  }

  lemma PartMore(st: St, raw: string, c: char)
    requires (st.InStr? || st.StrEsc? || st.StrHex?) && PartOfBody(st, raw) && StringTakes(st, c)
    ensures PartOfBody(StringState(st, c), raw + [c])
  {
    hide StringBody, ShortEscape, Hex;
    var t := raw + [c];
    match st {
      case InStr(_) =>
        if c == '\\' {
          assert t[..|t| - 1] == raw;
        } else {
          PlainUnit(c);
          BodySum(raw, [c]);
        }
      case StrEsc(_) =>
        var front := raw[..|raw| - 1];
        if c == 'u' {
          assert t[..|t| - 2] == front;
        } else {
          EscapeUnit(c);
          BodySum(front, ['\\', c]);
          assert t == front + ['\\', c];
        }
      case StrHex(_, n) =>
        var front := raw[..|raw| - n - 2];
        assert t[..|t| - (n + 1) - 2] == front;
        if n + 1 == 4 {
          var six := t[|t| - 6..];
          assert t == front + six;
          HexUnit(six);
          BodySum(front, six);
        }
    }
  }

  lemma PlainUnit(c: char)
    requires Plain(c)
    ensures StringBody([c])
  {
    assert [c][1..] == "";
  }

  lemma EscapeUnit(c: char)
    requires ShortEscape(c)
    ensures StringBody(['\\', c])
  {
    assert ['\\', c][2..] == "";
  }

  lemma HexUnit(s: string)
    requires |s| == 6 && s[0] == '\\' && s[1] == 'u' && Hex(s[2]) && Hex(s[3]) && Hex(s[4]) && Hex(s[5])
    ensures StringBody(s)
  {
    assert s[6..] == "";
  }

  /** A byte inside a string that does not close it. */
  lemma StringSteps(cfg: Config, s: Scan, i: nat, c: char)
    requires Alive(s) && (s.st.InStr? || s.st.StrEsc? || s.st.StrHex?) && !(s.st.InStr? && c == '"')
    ensures Alive(Step(cfg, s, i, c)) ==> StringTakes(s.st, c)
    ensures var t := Step(cfg, s, i, c);
            Alive(t) ==> t.st == StringState(s.st, c) && t.stack == s.stack && t.word == if s.st.key then s.word + [c] else s.word
    ensures Step(cfg, s, i, c).core == s.core.(why := Step(cfg, s, i, c).core.why)
    ensures !Alive(Step(cfg, s, i, c)) ==> Step(cfg, s, i, c).core.why == if s.st.InStr? && c < ' ' then ControlByte else BadJson
  {
    hide Punct, KeyDone, ValueDone, NumberEnds, LiteralText;
  }

  lemma StringStands(cfg: Config, s: Scan, i: nat, c: char, p: Place)
    requires StandsAt(s, p) && Alive(s) && Alive(Step(cfg, s, i, c)) && (p.tail.InKey? || p.tail.InText?) && !(s.st.InStr? && c == '"')
    ensures StandsAt(Step(cfg, s, i, c), Onward(p, s.st, c)) && PlaceText(Onward(p, s.st, c)) == PlaceText(p) + [c]
  {
    hide Step, FrameOk, FramesText, MemberRun, PartOfBody, StringState, StringTakes;
    StringSteps(cfg, s, i, c);
    StringStays(s.st, c);
    match p.tail {
      case InKey(members, pre, word) =>
        PartMore(s.st, word, c);
        Joined("{" + MemberRun(members) + pre, "\"", word, c);
        Joined(p.lead, FramesText(p.frames), "{" + MemberRun(members) + pre + "\"" + word, c);
      case InText(raw) =>
        PartMore(s.st, raw, c);
        assert "\"" + (raw + [c]) == "\"" + raw + [c];
        Joined(p.lead, FramesText(p.frames), "\"" + raw, c);
    }
  }

  lemma StringStays(st: St, c: char)
    requires st.InStr? || st.StrEsc? || st.StrHex?
    ensures var t := StringState(st, c); (t.InStr? || t.StrEsc? || t.StrHex?) && t.key == st.key
  {}

  lemma KeyDoneShape(cfg: Config, s: Scan)
    ensures Alive(KeyDone(cfg, s)) ==> KeyDone(cfg, s).st == Colon && KeyDone(cfg, s).stack == s.stack
  {
    hide KeyHold, KeyModel, KeyRule;
  }

  lemma KeyStands(cfg: Config, s: Scan, i: nat, p: Place)
    requires StandsAt(s, p) && Alive(s) && s.st.InStr? && p.tail.InKey? && Alive(KeyDone(cfg, s))
    ensures StandsAt(KeyDone(cfg, s), Onward(p, s.st, '"')) && PlaceText(Onward(p, s.st, '"')) == PlaceText(p) + ['"']
  {
    hide KeyDone, FrameOk, FramesText, MemberRun, StringBody;
    KeyDoneShape(cfg, s);
    var InKey(members, pre, word) := p.tail;
    HeadText("{" + MemberRun(members), pre, word);
    Joined(p.lead, FramesText(p.frames), "{" + MemberRun(members) + pre + "\"" + word, '"');
  }

  lemma HeadText(a: string, pre: string, word: string)
    ensures a + KeyHead(Member(pre, word, "", "", Lit(Null), "")) == a + pre + "\"" + word + ['"']
  {}

  lemma TextStands(cfg: Config, s: Scan, i: nat, p: Place)
    requires StandsAt(s, p) && Alive(s) && s.st.InStr? && p.tail.InText?
    ensures StandsAt(ValueDone(cfg, s, i + 1), Onward(p, s.st, '"')) && PlaceText(Onward(p, s.st, '"')) == PlaceText(p) + ['"']
  {
    hide ValueDone, FrameOk, FramesText, Closed, StringBody;
    var v := Str(p.tail.raw);
    assert s.stack == Kinds(p.frames) by { assert Kinds(p.frames) + [] == Kinds(p.frames); }
    ClosedStands(cfg, s, i + 1, p, v);
    ClosedText(p, v);
    assert Text(v) == "\"" + p.tail.raw + ['"'];
    Joined(p.lead, FramesText(p.frames), "\"" + p.tail.raw, '"');
  }

  // ---------------------------------------------------------------- literals and numbers

  lemma WordStands(cfg: Config, s: Scan, i: nat, c: char, p: Place)
    requires StandsAt(s, p) && Alive(s) && Alive(Step(cfg, s, i, c)) && p.tail.InWord?
    ensures StandsAt(Step(cfg, s, i, c), Onward(p, s.st, c)) && PlaceText(Onward(p, s.st, c)) == PlaceText(p) + [c]
  {
    hide ValueDone, FrameOk, FramesText, Closed, Punct, KeyDone, NumberEnds, LiteralText;
    var InWord(l, read) := p.tail;
    var w := LiteralText(l);
    assert s.stack == Kinds(p.frames) by { assert Kinds(p.frames) + [] == Kinds(p.frames); }
    assert w[..read + 1] == w[..read] + [c];
    Joined(p.lead, FramesText(p.frames), w[..read], c);
    if read + 1 == |w| {
      assert w[..read + 1] == w;
      LiteralIs(l);
      ClosedStands(cfg, s, i + 1, p, Lit(l));
      ClosedText(p, Lit(l));
    }
  }

  lemma LiteralIs(l: Literal)
    ensures Text(Lit(l)) == LiteralText(l) && ValueOk(Lit(l))
  {}

  predicate NumberTakes(st: St, c: char) {
    match st
    case NumSign => Digit(c)
    case NumDot => Digit(c)
    case NumE => Digit(c) || c == '+' || c == '-'
    case NumESign => Digit(c)
    case _ => GoesOn(st, c)
  }

  /** The states a number goes through. */
  lemma NumberMoves(cfg: Config, s: Scan, i: nat, c: char, n: Number)
    requires Alive(s) && PartOfNumber(s.st, n) && GoesOn(s.st, c)
    ensures Alive(Step(cfg, s, i, c)) <==> NumberTakes(s.st, c)
    ensures !Alive(Step(cfg, s, i, c)) ==> Step(cfg, s, i, c).core.why == BadJson
    ensures var u := NumberMore(s.st, n, c);
            NumberTakes(s.st, c) ==> u.InNumber? && Step(cfg, s, i, c) == s.(st := u.st)
  {
    hide Punct, KeyDone, ValueDone, NumberEnds, LiteralText, WholeOk, MarkOk, Digits;
  }

  lemma NumberParts(st: St, n: Number, c: char)
    requires PartOfNumber(st, n) && GoesOn(st, c) && NumberTakes(st, c)
    ensures var u := NumberMore(st, n, c); u.InNumber? && PartOfNumber(u.st, u.number)
  {}

  /** A byte at the end of a number's text. */
  lemma LastPart(a: string, w: string, f: string, m: string, e: string, c: char)
    ensures a + w + f + m + (e + [c]) == a + w + f + m + e + [c]
    ensures a + w + f + (m + [c]) + "" == a + w + f + m + "" + [c]
    ensures a + w + (f + [c]) + "" + "" == a + w + f + "" + "" + [c]
    ensures a + (w + [c]) + "" + "" + "" == a + w + "" + "" + "" + [c]
  {}

  lemma NumberText1(st: St, n: Number, c: char)
    requires PartOfNumber(st, n) && GoesOn(st, c) && NumberTakes(st, c)
    ensures var u := NumberMore(st, n, c); u.InNumber? && PartText(u.st, u.number) == PartText(st, n) + [c]
  {
    hide WholeOk, Digits, MarkOk;
    var a, f := if n.minus then "-" else "", if st.NumDot? then "." else Fraction(n.frac);
    LastPart(a, n.whole, f, n.mark, n.exp, c);
    FractionMore(n.frac, c);
    assert "" + [c] == [c];
  }

  lemma FractionMore(frac: string, c: char)
    ensures Fraction([c]) == "." + [c] && (frac != "" ==> Fraction(frac + [c]) == Fraction(frac) + [c])
    ensures Fraction("") == "" && "" + [c] == [c]
  {}

  lemma NumberSteps(cfg: Config, s: Scan, i: nat, c: char, n: Number)
    requires Alive(s) && PartOfNumber(s.st, n) && GoesOn(s.st, c) && Alive(Step(cfg, s, i, c))
    ensures var u := NumberMore(s.st, n, c);
            && u.InNumber? && Step(cfg, s, i, c) == s.(st := u.st) && PartOfNumber(u.st, u.number)
            && PartText(u.st, u.number) == PartText(s.st, n) + [c]
  {
    hide Step, PartOfNumber, PartText, NumberMore;
    NumberMoves(cfg, s, i, c, n);
    NumberParts(s.st, n, c);
    NumberText1(s.st, n, c);
  }

  lemma NumberWhole(st: St, n: Number)
    requires PartOfNumber(st, n) && NumberFinal(st)
    ensures NumberOk(n) && NumberText(n) == PartText(st, n)
  {
    var a := if n.minus then "-" else "";
    assert a + (n.whole + (Fraction(n.frac) + (n.mark + n.exp))) == a + n.whole + Fraction(n.frac) + n.mark + n.exp;
  }

  lemma NumberStops(cfg: Config, s: Scan, i: nat, c: char, n: Number)
    requires Alive(s) && PartOfNumber(s.st, n) && !GoesOn(s.st, c)
    ensures NumberFinal(s.st)
    ensures Step(cfg, s, i, c) == if s.st.NumZero? && Digit(c) then Refuse(s, BadJson) else NumberEnds(cfg, s, i, c)
  {
    hide Punct, KeyDone, ValueDone, NumberEnds, LiteralText;
  }

  lemma NumberStands(cfg: Config, s: Scan, i: nat, c: char, p: Place)
    requires StandsAt(s, p) && Alive(s) && Alive(Step(cfg, s, i, c)) && p.tail.InNumber?
    ensures StandsAt(Step(cfg, s, i, c), Onward(p, s.st, c)) && PlaceText(Onward(p, s.st, c)) == PlaceText(p) + [c]
  {
    hide ValueDone, FrameOk, FramesText, Closed, Punct, Step, PartText, PartOfNumber, NumberMore, GoesOn, Between1;
    var InNumber(st, n) := p.tail;
    assert s.stack == Kinds(p.frames) by { assert Kinds(p.frames) + [] == Kinds(p.frames); }
    if GoesOn(st, c) {
      NumberSteps(cfg, s, i, c, n);
      Joined(p.lead, FramesText(p.frames), PartText(st, n), c);
    } else {
      NumberStops(cfg, s, i, c, n);
      NumberWhole(st, n);
      var t := ValueDone(cfg, s, i);
      ClosedStands(cfg, s, i, p, Num(n));
      ClosedText(p, Num(n));
      DoneBetween(cfg, s, i);
      PunctStands(cfg, t, i, c, Closed(p, Num(n)));
    }
  }

  lemma DoneBetween(cfg: Config, s: Scan, end: nat)
    ensures Between(ValueDone(cfg, s, end).st) && (Alive(s) ==> Alive(ValueDone(cfg, s, end)))
  {
    hide Settle;
  }

  // ---------------------------------------------------------------- every byte

  lemma StringCloses(cfg: Config, s: Scan, i: nat)
    requires Alive(s) && s.st.InStr?
    ensures Step(cfg, s, i, '"') == if s.st.key then KeyDone(cfg, s) else ValueDone(cfg, s, i + 1)
  {
    hide Punct, KeyDone, ValueDone, NumberEnds, LiteralText;
  }

  lemma BetweenSteps(cfg: Config, s: Scan, i: nat, c: char)
    requires Alive(s) && Between(s.st)
    ensures Step(cfg, s, i, c) == Punct(cfg, s, i, c)
  {
    hide Punct, KeyDone, ValueDone, NumberEnds, LiteralText;
  }

  lemma StepStands(cfg: Config, s: Scan, i: nat, c: char, p: Place)
    requires StandsAt(s, p) && Alive(s) && Alive(Step(cfg, s, i, c))
    ensures StandsAt(Step(cfg, s, i, c), Onward(p, s.st, c)) && PlaceText(Onward(p, s.st, c)) == PlaceText(p) + [c]
  {
    StandsKind(s, p);
    assert Between(s.st) ==> Onward(p, s.st, c) == Between1(p, c);
    hide StandsAt, PlaceText, Step, Onward, Punct, KeyDone, ValueDone;
    if Between(s.st) {
      BetweenSteps(cfg, s, i, c);
      PunctStands(cfg, s, i, c, p);
    } else if p.tail.InWord? {
      WordStands(cfg, s, i, c, p);
    } else if p.tail.InNumber? {
      NumberStands(cfg, s, i, c, p);
    } else if s.st.InStr? && c == '"' {
      StringCloses(cfg, s, i);
      if p.tail.InKey? { KeyStands(cfg, s, i, p); } else { TextStands(cfg, s, i, p); }
    } else {
      StringStands(cfg, s, i, c, p);
    }
  }
}
