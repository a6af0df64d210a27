/** What the automaton does with the text of a syntax tree: `Absorb` follows the tree, and the
    byte-by-byte run over the tree's text ends where it does.
 */
module ScanGrammar {
  import opened Json
  import opened Automaton

  /** Bytes that may follow a value. */
  predicate Ends(c: char) { Ws(c) || c == ',' || c == ']' || c == '}' }

  // ---------------------------------------------------------------- following the tree

  function Close(cfg: Config, s: Scan, i: nat): (r: Scan)
    ensures r.core.why == s.core.why
  {
    if Alive(s) && s.stack != [] then CloseContainer(cfg, s, i) else s
  }

  function Comma(cfg: Config, s: Scan, i: nat): Scan {
    if Alive(s) then s.(st := ObjKey, core := HoldComma(cfg, s.core, |s.stack|, i)) else s
  }

  function Await(s: Scan): Scan { if Alive(s) then s.(st := Due) else s }

  /** A whole key whose opening quote is at `i`. */
  function AbsorbKey(cfg: Config, s: Scan, i: nat, key: string): Scan {
    if Alive(s) then KeyDone(cfg, OpenKey(s, i).(word := key)) else s
  }

  /** The byte a value's text begins with. */
  function First(v: Value): char {
    match v
    case Lit(l) => LiteralText(l)[0]
    case Num(n) => if n.minus then '-' else if n.whole == "" || !Digit(n.whole[0]) then '0' else n.whole[0]
    case Str(_) => '"'
    case Arr(_, _) => '['
    case Obj(_, _) => '{'
  }

  function Absorb(cfg: Config, s: Scan, at: nat, v: Value): Scan
    decreases v, 1
  {
    var b := Begin(cfg, s, at, First(v));
    if !Alive(s) then s else if !Alive(b) then b else AbsorbRest(cfg, b, at, v)
  }

  /** What following the tree makes of a value whose first byte led to `b`. */
  function AbsorbRest(cfg: Config, b: Scan, at: nat, v: Value): Scan
    decreases v, 0
  {
    match v
    case Arr(gap, items) =>
      if items == [] then Close(cfg, b, at + 1 + |gap|) else AbsorbItems(cfg, b, at + 1, items)
    case Obj(gap, members) =>
      if members == [] then Close(cfg, b, at + 1 + |gap|) else AbsorbMembers(cfg, b, at + 1, members)
    case _ => ValueDone(cfg, b, at + |Text(v)|)
  }

  function AbsorbItems(cfg: Config, s: Scan, at: nat, items: seq<Item>): Scan
    requires items != []
    decreases items
  {
    var t := Absorb(cfg, s, at + |items[0].pre|, items[0].value);
    var j := at + |ItemText(items[0])|;
    if |items| == 1 then Close(cfg, t, j) else AbsorbItems(cfg, Await(t), j + 1, items[1..])
  }

  /** One member, from before its key to after its value. */
  function AbsorbMember(cfg: Config, s: Scan, at: nat, m: Member): Scan
    decreases m
  {
    Absorb(cfg, Await(AbsorbKey(cfg, s, at + |m.pre|, m.key)), at + |MemberHead(m)|, m.value)
  }

  function AbsorbMembers(cfg: Config, s: Scan, at: nat, members: seq<Member>): Scan
    requires members != []
    decreases members
  {
    var t := AbsorbMember(cfg, s, at, members[0]);
    var j := at + |MemberText(members[0])|;
    if |members| == 1 then Close(cfg, t, j) else AbsorbMembers(cfg, Comma(cfg, t, j), j + 1, members[1..])
  }

  // ---------------------------------------------------------------- what a value leaves alone

  lemma {:induction false} ItemsRefused(cfg: Config, s: Scan, at: nat, items: seq<Item>)
    requires items != [] && !Alive(s)
    ensures AbsorbItems(cfg, s, at, items) == s
    decreases items
  {
    hide Begin;
    if |items| > 1 { ItemsRefused(cfg, s, at + |ItemText(items[0])| + 1, items[1..]); }
  }

  lemma {:induction false} MembersRefused(cfg: Config, s: Scan, at: nat, members: seq<Member>)
    requires members != [] && !Alive(s)
    ensures AbsorbMembers(cfg, s, at, members) == s
    decreases members
  {
    hide Begin;
    assert AbsorbMember(cfg, s, at, members[0]) == s;
    if |members| > 1 { MembersRefused(cfg, s, at + |MemberText(members[0])| + 1, members[1..]); }
  }

  /** A value that is not refused gives back the stack it found. */
  lemma {:induction false} AbsorbShape(cfg: Config, s: Scan, at: nat, v: Value)
    requires s.word == "" && Alive(Absorb(cfg, s, at, v))
    ensures Alive(s)
    ensures var t := Absorb(cfg, s, at, v);
            t.stack == s.stack && t.st == AfterValue(s.stack) && t.word == ""
    decreases v
  {
    hide StartValue, Settle, Enter, KeyHold, KeyModel, HoldKey, Tracked;
    var b := Begin(cfg, s, at, First(v));
    if v.Arr? || v.Obj? { assert b.stack[..|b.stack| - 1] == s.stack; }
    match v {
      case Arr(gap, items) => if items != [] { ItemsShape(cfg, b, at + 1, items); }
      case Obj(gap, members) => if members != [] { MembersShape(cfg, b, at + 1, members); }
      case _ =>
    }
  }

  lemma {:induction false} ItemsShape(cfg: Config, s: Scan, at: nat, items: seq<Item>)
    requires items != [] && s.stack != [] && s.word == "" && Alive(AbsorbItems(cfg, s, at, items))
    ensures Alive(s)
    ensures var t := AbsorbItems(cfg, s, at, items);
            t.stack == s.stack[..|s.stack| - 1] && t.st == AfterValue(t.stack) && t.word == ""
    decreases items
  {
    hide Begin, Settle;
    var t := Absorb(cfg, s, at + |items[0].pre|, items[0].value);
    var j := at + |ItemText(items[0])|;
    if |items| > 1 {
      ItemsAlive(cfg, Await(t), j + 1, items[1..]);
      AbsorbShape(cfg, s, at + |items[0].pre|, items[0].value);
      ItemsShape(cfg, Await(t), j + 1, items[1..]);
    } else {
      AbsorbShape(cfg, s, at + |items[0].pre|, items[0].value);
    }
  }

  lemma ItemsAlive(cfg: Config, s: Scan, at: nat, items: seq<Item>)
    requires items != [] && Alive(AbsorbItems(cfg, s, at, items))
    ensures Alive(s)
  {
    hide AbsorbItems;
    if !Alive(s) { ItemsRefused(cfg, s, at, items); }
  }

  lemma MembersAlive(cfg: Config, s: Scan, at: nat, members: seq<Member>)
    requires members != [] && Alive(AbsorbMembers(cfg, s, at, members))
    ensures Alive(s)
  {
    hide AbsorbMembers;
    if !Alive(s) { MembersRefused(cfg, s, at, members); }
  }

  lemma KeyShape(cfg: Config, s: Scan, i: nat, key: string)
    requires Alive(AbsorbKey(cfg, s, i, key))
    ensures Alive(s)
    ensures var t := AbsorbKey(cfg, s, i, key); t.stack == s.stack && t.st == Colon && t.word == ""
  {
    hide KeyHold, KeyModel, HoldKey, Tracked;
  }

  lemma AbsorbDead(cfg: Config, s: Scan, at: nat, v: Value)
    requires !Alive(s)
    ensures Absorb(cfg, Await(s), at, v) == s
  {
    hide Begin, AbsorbRest;
  }

  lemma {:induction false} MemberShape(cfg: Config, s: Scan, at: nat, m: Member)
    requires Alive(AbsorbMember(cfg, s, at, m))
    ensures Alive(s) && Alive(AbsorbKey(cfg, s, at + |m.pre|, m.key))
    ensures var t := AbsorbMember(cfg, s, at, m);
            t.stack == s.stack && t.st == AfterValue(s.stack) && t.word == ""
    decreases m
  {
    hide AbsorbKey, Absorb, MemberHead, Text;
    var k := AbsorbKey(cfg, s, at + |m.pre|, m.key);
    if Alive(k) {
      KeyShape(cfg, s, at + |m.pre|, m.key);
      AbsorbShape(cfg, Await(k), at + |MemberHead(m)|, m.value);
    } else {
      AbsorbDead(cfg, k, at + |MemberHead(m)|, m.value);
    }
  }

  lemma {:induction false} MembersShape(cfg: Config, s: Scan, at: nat, members: seq<Member>)
    requires members != [] && s.stack != [] && Alive(AbsorbMembers(cfg, s, at, members))
    ensures Alive(s)
    ensures var t := AbsorbMembers(cfg, s, at, members);
            t.stack == s.stack[..|s.stack| - 1] && t.st == AfterValue(t.stack) && t.word == ""
    decreases members
  {
    hide Begin, Settle, AbsorbMember, HoldComma;
    var t := AbsorbMember(cfg, s, at, members[0]);
    var j := at + |MemberText(members[0])|;
    if |members| > 1 {
      MembersAlive(cfg, Comma(cfg, t, j), j + 1, members[1..]);
      HoldCommaWhy(cfg, t, j);
      MemberShape(cfg, s, at, members[0]);
      MembersShape(cfg, Comma(cfg, t, j), j + 1, members[1..]);
    } else {
      MemberShape(cfg, s, at, members[0]);
    }
  }

  lemma HoldCommaWhy(cfg: Config, s: Scan, i: nat)
    ensures Alive(Comma(cfg, s, i)) <==> Alive(s)
    ensures Comma(cfg, s, i).stack == s.stack && Comma(cfg, s, i).word == s.word
  {}

  // ---------------------------------------------------------------- runs over tokens

  lemma RunCons(cfg: Config, s: Scan, at: nat, text: string)
    requires text != ""
    ensures Run(cfg, s, at, text) == Run(cfg, Step(cfg, s, at, text[0]), at + 1, text[1..])
  {
    hide Step;
  }

  lemma {:induction false} RunBlank(cfg: Config, s: Scan, at: nat, ws: string)
    requires Blank(ws) && Between(s.st)
    ensures Run(cfg, s, at, ws) == s
    decreases |ws|
  {
    hide Begin, CloseContainer, OpenKey;
    if ws != "" { RunBlank(cfg, s, at + 1, ws[1..]); }
  }

  /** The state once the string contents `raw` were read. */
  function Spelled(s: Scan, raw: string): Scan
    requires s.st.InStr?
  {
    if s.st.key then s.(word := s.word + raw) else s
  }

  lemma RunPlainByte(cfg: Config, s: Scan, at: nat, c: char)
    requires Alive(s) && s.st.InStr? && Plain(c)
    ensures Step(cfg, s, at, c) == Spelled(s, [c])
  {
    hide Punct, KeyDone, ValueDone, NumberEnds;
  }

  lemma RunShort(cfg: Config, s: Scan, at: nat, e: char)
    requires Alive(s) && s.st.InStr? && ShortEscape(e)
    ensures Step(cfg, Step(cfg, s, at, '\\'), at + 1, e) == Spelled(s, ['\\', e])
  {
    hide Punct, KeyDone, ValueDone, NumberEnds;
    assert s.word + ['\\'] + [e] == s.word + ['\\', e];
  }

  lemma HexStep(cfg: Config, s: Scan, at: nat, h: char)
    requires Alive(s) && s.st.StrHex? && Hex(h)
    ensures Step(cfg, s, at, h) == Spell(s, h).(st := if s.st.digits == 3 then InStr(s.st.key) else StrHex(s.st.key, s.st.digits + 1))
  {
    hide Punct, KeyDone, ValueDone, NumberEnds;
  }

  lemma RunCode(cfg: Config, s: Scan, at: nat, u: string)
    requires Alive(s) && s.st.InStr? && |u| == 6 && u[0] == '\\' && u[1] == 'u'
    requires Hex(u[2]) && Hex(u[3]) && Hex(u[4]) && Hex(u[5])
    ensures Run(cfg, s, at, u) == Spelled(s, u)
  {
    hide Punct, KeyDone, ValueDone, NumberEnds, Run;
    var s1 := Step(cfg, s, at, u[0]);
    var s2 := Step(cfg, s1, at + 1, u[1]);
    assert s2.st == StrHex(s.st.key, 0) && Alive(s2);
    hide Step;
    RunSix(cfg, s, at, u);
    var s3 := Step(cfg, s2, at + 2, u[2]); HexStep(cfg, s2, at + 2, u[2]);
    var s4 := Step(cfg, s3, at + 3, u[3]); HexStep(cfg, s3, at + 3, u[3]);
    var s5 := Step(cfg, s4, at + 4, u[4]); HexStep(cfg, s4, at + 4, u[4]);
    var s6 := Step(cfg, s5, at + 5, u[5]); HexStep(cfg, s5, at + 5, u[5]);
    if s.st.key { assert s.word + u == s.word + [u[0]] + [u[1]] + [u[2]] + [u[3]] + [u[4]] + [u[5]]; }
  }

  lemma RunSix(cfg: Config, s: Scan, at: nat, u: string)
    requires |u| == 6
    ensures var s1 := Step(cfg, s, at, u[0]);
            var s2 := Step(cfg, s1, at + 1, u[1]);
            var s3 := Step(cfg, s2, at + 2, u[2]);
            var s4 := Step(cfg, s3, at + 3, u[3]);
            var s5 := Step(cfg, s4, at + 4, u[4]);
            Run(cfg, s, at, u) == Step(cfg, s5, at + 5, u[5])
  {
    hide Step;
    var s1 := Step(cfg, s, at, u[0]);
    var s2 := Step(cfg, s1, at + 1, u[1]);
    var s3 := Step(cfg, s2, at + 2, u[2]);
    var s4 := Step(cfg, s3, at + 3, u[3]);
    var s5 := Step(cfg, s4, at + 4, u[4]);
    var s6 := Step(cfg, s5, at + 5, u[5]);
    RunCons(cfg, s, at, u);
    RunCons(cfg, s1, at + 1, u[1..]);
    assert u[1..][1..] == u[2..];
    RunCons(cfg, s2, at + 2, u[2..]);
    assert u[2..][1..] == u[3..];
    RunCons(cfg, s3, at + 3, u[3..]);
    assert u[3..][1..] == u[4..];
    RunCons(cfg, s4, at + 4, u[4..]);
    assert u[4..][1..] == u[5..];
    RunCons(cfg, s5, at + 5, u[5..]);
    assert u[5..][1..] == "";
  }

  /** String contents leave the automaton inside the string, having spelled them. */
  lemma {:induction false} RunBody(cfg: Config, s: Scan, at: nat, raw: string)
    requires Alive(s) && s.st.InStr? && StringBody(raw)
    ensures Run(cfg, s, at, raw) == Spelled(s, raw)
    decreases |raw|
  {
    hide Step;
    if raw == "" {
      assert s.word + raw == s.word;
    } else if Plain(raw[0]) && StringBody(raw[1..]) {
      RunPlainByte(cfg, s, at, raw[0]);
      RunCons(cfg, s, at, raw);
      RunBody(cfg, Spelled(s, [raw[0]]), at + 1, raw[1..]);
      assert raw == [raw[0]] + raw[1..];
      SpelledTwice(s, [raw[0]], raw[1..]);
    } else if |raw| >= 2 && raw[0] == '\\' && ShortEscape(raw[1]) && StringBody(raw[2..]) {
      RunShort(cfg, s, at, raw[1]);
      RunCons(cfg, s, at, raw);
      RunCons(cfg, Step(cfg, s, at, raw[0]), at + 1, raw[1..]);
      assert raw[1..][1..] == raw[2..];
      RunBody(cfg, Spelled(s, ['\\', raw[1]]), at + 2, raw[2..]);
      assert raw == ['\\', raw[1]] + raw[2..];
      SpelledTwice(s, ['\\', raw[1]], raw[2..]);
    } else {
      RunCode(cfg, s, at, raw[..6]);
      assert raw == raw[..6] + raw[6..];
      RunAppend(cfg, s, at, raw[..6], raw[6..]);
      RunBody(cfg, Spelled(s, raw[..6]), at + 6, raw[6..]);
      SpelledTwice(s, raw[..6], raw[6..]);
    }
  }

  lemma SpelledTwice(s: Scan, a: string, b: string)
    requires s.st.InStr?
    ensures Spelled(Spelled(s, a), b) == Spelled(s, a + b)
  {
    assert s.word + a + b == s.word + (a + b);
  }

  lemma {:induction false} RunLiteral(cfg: Config, s: Scan, at: nat, l: Literal, n: nat)
    requires Alive(s) && s.st == InLit(l, n) && 1 <= n < |LiteralText(l)|
    ensures Run(cfg, s, at, LiteralText(l)[n..]) == ValueDone(cfg, s, at + |LiteralText(l)| - n)
    decreases |LiteralText(l)| - n
  {
    hide Punct, KeyDone, Settle, NumberEnds;
    var text := LiteralText(l);
    RunCons(cfg, s, at, text[n..]);
    assert text[n..][0] == text[n] && text[n..][1..] == text[n + 1..];
    if n + 1 < |text| { RunLiteral(cfg, s.(st := InLit(l, n + 1)), at + 1, l, n + 1); }
  }

  // ---------------------------------------------------------------- numbers

  lemma {:induction false} RunDigits(cfg: Config, s: Scan, at: nat, ds: string)
    requires Alive(s) && (s.st.NumInt? || s.st.NumFrac? || s.st.NumExp?) && Digits(ds)
    ensures Run(cfg, s, at, ds) == s
    decreases |ds|
  {
    hide Punct, KeyDone, ValueDone, NumberEnds;
    if ds != "" { RunDigits(cfg, s, at + 1, ds[1..]); }
  }

  lemma NumberParts(n: Number, rest: string)
    ensures NumberText(n) + rest == (if n.minus then "-" else "") + (n.whole + (Tail(n.frac, n.mark, n.exp) + rest))
  {
    hide Tail;
  }

  function AfterFraction(st: St, frac: string): St { if frac == "" then st else NumFrac }

  function AfterExponent(st: St, mark: string): St { if mark == "" then st else NumExp }

  lemma RunFraction(cfg: Config, s: Scan, at: nat, frac: string)
    requires Alive(s) && (s.st.NumZero? || s.st.NumInt?) && Digits(frac)
    ensures Run(cfg, s, at, Fraction(frac)) == s.(st := AfterFraction(s.st, frac))
  {
    hide Punct, KeyDone, ValueDone, NumberEnds, Run;
    if frac == "" {
      RunNone(cfg, s, at);
    } else {
      var text := Fraction(frac);
      RunCons(cfg, s, at, text);
      RunCons(cfg, s.(st := NumDot), at + 1, text[1..]);
      assert text[1..] == frac && text[1..][1..] == frac[1..];
      RunDigits(cfg, s.(st := NumFrac), at + 2, frac[1..]);
    }
  }

  lemma RunNone(cfg: Config, s: Scan, at: nat)
    ensures Run(cfg, s, at, "") == s
  {}

  lemma RunExponent(cfg: Config, s: Scan, at: nat, mark: string, exp: string)
    requires Alive(s) && (s.st.NumZero? || s.st.NumInt? || s.st.NumFrac?)
    requires Digits(exp) && (mark == "" <==> exp == "") && (mark == "" || MarkOk(mark))
    ensures Run(cfg, s, at, mark + exp) == s.(st := AfterExponent(s.st, mark))
  {
    hide Punct, KeyDone, ValueDone, NumberEnds, Run;
    var text := mark + exp;
    if mark == "" {
      RunNone(cfg, s, at);
    } else if |mark| == 1 {
      RunCons(cfg, s, at, text);
      RunCons(cfg, s.(st := NumE), at + 1, text[1..]);
      assert text[1..] == exp && text[1..][1..] == exp[1..];
      RunDigits(cfg, s.(st := NumExp), at + 2, exp[1..]);
    } else {
      RunCons(cfg, s, at, text);
      RunCons(cfg, s.(st := NumE), at + 1, text[1..]);
      RunCons(cfg, s.(st := NumESign), at + 2, text[1..][1..]);
      assert text[1..][1..] == exp && text[1..][1..][1..] == exp[1..];
      RunDigits(cfg, s.(st := NumExp), at + 3, exp[1..]);
    }
  }

  /** Once the whole part was read, the rest of the number only moves the state. */
  lemma RunTail(cfg: Config, s: Scan, at: nat, n: Number)
    requires Alive(s) && (s.st.NumZero? || s.st.NumInt?) && NumberOk(n)
    ensures Run(cfg, s, at, Tail(n.frac, n.mark, n.exp))
            == s.(st := AfterExponent(AfterFraction(s.st, n.frac), n.mark))
  {
    hide Step, Run;
    RunAppend(cfg, s, at, Fraction(n.frac), n.mark + n.exp);
    RunFraction(cfg, s, at, n.frac);
    RunExponent(cfg, s.(st := AfterFraction(s.st, n.frac)), at + |Fraction(n.frac)|, n.mark, n.exp);
  }

  /** The digits of the whole part after the first byte of the number. */
  lemma RunWhole(cfg: Config, s: Scan, at: nat, n: Number)
    requires Alive(s) && NumberOk(n) && s.st == ScalarState(First(Num(n)))
    ensures var digits := if n.minus then n.whole else n.whole[1..];
            Run(cfg, s, at, digits) == s.(st := if n.whole == "0" then NumZero else NumInt)
  {
    hide Punct, KeyDone, ValueDone, NumberEnds, Run;
    var t := s.(st := if n.whole == "0" then NumZero else NumInt);
    assert Digit(n.whole[0]);
    if n.minus { RunCons(cfg, s, at, n.whole); }
    if n.whole == "0" { RunNone(cfg, t, at); RunNone(cfg, t, at + 1); }
    else { RunDigits(cfg, t, at, n.whole[1..]); RunDigits(cfg, t, at + 1, n.whole[1..]); }
  }

  lemma RunNumber(cfg: Config, s: Scan, at: nat, n: Number)
    requires Alive(s) && NumberOk(n) && s.st == ScalarState(First(Num(n)))
    ensures var t := Run(cfg, s, at, NumberText(n)[1..]);
            NumberFinal(t.st) && t == s.(st := t.st)
  {
    hide Step, Run, Tail;
    var digits := if n.minus then n.whole else n.whole[1..];
    var tail := Tail(n.frac, n.mark, n.exp);
    assert NumberText(n)[1..] == digits + tail;
    RunAppend(cfg, s, at, digits, tail);
    RunWhole(cfg, s, at, n);
    RunTail(cfg, s.(st := if n.whole == "0" then NumZero else NumInt), at + |digits|, n);
  }

  /** A number ends at a byte it cannot take, with the state its container gives. */
  lemma NumberStops(cfg: Config, s: Scan, t: Scan, at: nat, c: char)
    requires Alive(s) && NumberFinal(t.st) && t == s.(st := t.st) && Ends(c)
    ensures Step(cfg, t, at, c) == Step(cfg, ValueDone(cfg, s, at), at, c)
  {
    hide Punct, KeyDone, Settle;
  }

  // ---------------------------------------------------------------- the run follows the tree

  lemma RunAfter(cfg: Config, s: Scan, at: nat, a: string, t: Scan, b: string)
    requires Run(cfg, s, at, a) == t
    ensures Run(cfg, s, at, a + b) == Run(cfg, t, at + |a|, b)
  {
    hide Step, Run;
    RunAppend(cfg, s, at, a, b);
  }

  /** Whether a value may begin here. */
  predicate Expects(s: Scan) { (s.st.Due? || s.st.ArrFirst?) && s.word == "" }

  lemma RunFirst(cfg: Config, s: Scan, at: nat, v: Value, rest: string)
    requires Alive(s) && Expects(s) && ValueOk(v)
    ensures Text(v) != "" && Text(v)[0] == First(v)
    ensures Run(cfg, s, at, Text(v) + rest) == Run(cfg, Begin(cfg, s, at, First(v)), at + 1, Text(v)[1..] + rest)
  {
    hide Begin, CloseContainer, OpenKey, HoldComma, ItemsText, MembersText;
    RunCons(cfg, s, at, Text(v) + rest);
    assert Text(v)[0] == First(v);
    assert (Text(v) + rest)[1..] == Text(v)[1..] + rest;
  }

  lemma BeginShape(cfg: Config, s: Scan, at: nat, v: Value)
    requires Alive(s) && Expects(s) && Alive(Begin(cfg, s, at, First(v)))
    ensures var b := Begin(cfg, s, at, First(v));
            && b.word == ""
            && (v.Arr? ==> b.st == ArrFirst && b.stack == s.stack + [InArr])
            && (v.Obj? ==> b.st == ObjFirst && b.stack == s.stack + [InObj])
            && (!v.Arr? && !v.Obj? ==> b.st == ScalarState(First(v)) && b.stack == s.stack)
  {
    hide StartValue, Enter;
  }

  lemma RunStringEnd(cfg: Config, s: Scan, at: nat, raw: string, rest: string)
    requires Alive(s) && s.st == InStr(false) && StringBody(raw)
    ensures Run(cfg, s, at, raw + "\"" + rest)
            == Run(cfg, ValueDone(cfg, s, at + |raw| + 1), at + |raw| + 1, rest)
  {
    hide Run, Punct, KeyDone, Settle, NumberEnds;
    RunBody(cfg, s, at, raw);
    assert raw + "\"" + rest == raw + ("\"" + rest);
    RunAfter(cfg, s, at, raw, s, "\"" + rest);
    RunCons(cfg, s, at + |raw|, "\"" + rest);
    assert ("\"" + rest)[1..] == rest;
  }

  lemma NumberTextLong(n: Number)
    requires NumberOk(n)
    ensures NumberText(n) != ""
  {}

  lemma RunNumberEnd(cfg: Config, s: Scan, at: nat, n: Number, rest: string)
    requires NumberOk(n) && rest != "" && Ends(rest[0])
    requires Alive(s) && s.st == ScalarState(First(Num(n)))
    ensures var j := at + |NumberText(n)|;
            Run(cfg, s, at + 1, NumberText(n)[1..] + rest) == Run(cfg, ValueDone(cfg, s, j), j, rest)
  {
    hide Run, Step, NumberText, ValueDone;
    assert NumberText(n) != "" by { NumberTextLong(n); }
    RunNumber(cfg, s, at + 1, n);
    var t, j := Run(cfg, s, at + 1, NumberText(n)[1..]), at + |NumberText(n)|;
    RunAfter(cfg, s, at + 1, NumberText(n)[1..], t, rest);
    NumberStops(cfg, s, t, j, rest[0]);
    RunCons(cfg, t, j, rest);
    RunCons(cfg, ValueDone(cfg, s, j), j, rest);
  }

  lemma RunScalar(cfg: Config, s: Scan, at: nat, v: Value, rest: string)
    requires ValueOk(v) && !v.Arr? && !v.Obj? && (v.Num? ==> rest != "" && Ends(rest[0]))
    requires Alive(s) && s.st == ScalarState(First(v)) && s.word == ""
    ensures Text(v) != ""
    ensures Run(cfg, s, at + 1, Text(v)[1..] + rest) == Run(cfg, ValueDone(cfg, s, at + |Text(v)|), at + |Text(v)|, rest)
  {
    hide Run, Step, ValueDone;
    match v {
      case Str(raw) =>
        RunStringEnd(cfg, s, at + 1, raw, rest);
        assert Text(v)[1..] + rest == raw + "\"" + rest;
      case Lit(l) =>
        RunLiteral(cfg, s, at + 1, l, 1);
        RunAfter(cfg, s, at + 1, Text(v)[1..], ValueDone(cfg, s, at + |Text(v)|), rest);
      case Num(n) => RunNumberEnd(cfg, s, at, n, rest);
    }
  }

  /** The blank and the bracket that end a container. */
  lemma RunClose(cfg: Config, s: Scan, at: nat, gap: string, c: char, rest: string)
    requires Alive(s) && Blank(gap) && s.stack != []
    requires (c == ']' && (s.st.ArrFirst? || s.st.ArrNext?)) || (c == '}' && (s.st.ObjFirst? || s.st.ObjNext?))
    ensures Run(cfg, s, at, gap + [c] + rest) == Run(cfg, CloseContainer(cfg, s, at + |gap|), at + |gap| + 1, rest)
  {
    hide Run, CloseContainer, Begin, OpenKey;
    RunBlank(cfg, s, at, gap);
    assert gap + [c] + rest == gap + ([c] + rest);
    RunAfter(cfg, s, at, gap, s, [c] + rest);
    RunCons(cfg, s, at + |gap|, [c] + rest);
    assert ([c] + rest)[1..] == rest;
  }

  lemma InsideText(v: Value, rest: string)
    requires v.Arr? || v.Obj?
    ensures v.Arr? ==> Text(v)[1..] + rest == (if v.items == [] then v.gap else ItemsText(v.items)) + "]" + rest
    ensures v.Obj? ==> Text(v)[1..] + rest == (if v.members == [] then v.gap else MembersText(v.members)) + "}" + rest
  {
    hide ItemsText, MembersText;
  }

  lemma {:induction false} RunInside(cfg: Config, b: Scan, at: nat, v: Value, rest: string)
    requires ValueOk(v) && (v.Arr? || v.Obj?) && Alive(b) && b.stack != [] && b.word == ""
    requires v.Arr? ==> b.st == ArrFirst && b.stack[|b.stack| - 1].InArr?
    requires v.Obj? ==> b.st == ObjFirst && b.stack[|b.stack| - 1].InObj?
    ensures Run(cfg, b, at + 1, Text(v)[1..] + rest) == Run(cfg, AbsorbRest(cfg, b, at, v), at + |Text(v)|, rest)
    decreases v, 0
  {
    hide Run, Step, CloseContainer, AbsorbItems, AbsorbMembers, ItemsText, MembersText;
    InsideText(v, rest);
    match v {
      case Arr(gap, items) =>
        if items == [] { RunClose(cfg, b, at + 1, gap, ']', rest); }
        else { RunItems(cfg, b, at + 1, items, rest); }
      case Obj(gap, members) =>
        if members == [] { RunClose(cfg, b, at + 1, gap, '}', rest); }
        else { RunMembers(cfg, b, at + 1, members, rest); }
    }
  }

  /** Over a value's text the run ends where following the tree does. */
  lemma {:induction false} RunValue(cfg: Config, s: Scan, at: nat, v: Value, rest: string)
    requires ValueOk(v) && (Alive(s) ==> Expects(s)) && (v.Num? ==> rest != "" && Ends(rest[0]))
    ensures Run(cfg, s, at, Text(v) + rest) == Run(cfg, Absorb(cfg, s, at, v), at + |Text(v)|, rest)
    decreases v, 1
  {
    hide Run, Step, Begin, ValueDone, Close, AbsorbItems, AbsorbMembers, Text;
    if !Alive(s) {
      RunRefused(cfg, s, at, Text(v) + rest);
      RunRefused(cfg, s, at + |Text(v)|, rest);
      return;
    }
    RunFirst(cfg, s, at, v, rest);
    var b := Begin(cfg, s, at, First(v));
    if !Alive(b) {
      RunRefused(cfg, b, at + 1, Text(v)[1..] + rest);
      RunRefused(cfg, b, at + |Text(v)|, rest);
      return;
    }
    BeginShape(cfg, s, at, v);
    if v.Arr? || v.Obj? {
      RunInside(cfg, b, at, v, rest);
    } else {
      RunScalar(cfg, b, at, v, rest);
    }
  }

  lemma Assoc(a: string, b: string, c: string)
    ensures a + b + c == a + (b + c)
  {}

  /** Three pieces, a separator and what follows, regrouped from the right. */
  lemma Regroup(a: string, b: string, c: string, d: string)
    ensures a + b + c + d == a + (b + (c + d))
  {
    Assoc(a + b, c, d);
    Assoc(a, b, c + d);
  }

  lemma ItemsSplit(items: seq<Item>, rest: string)
    requires items != []
    ensures ItemsText(items) + "]" + rest
            == items[0].pre + (Text(items[0].value) + (items[0].post +
                 (if |items| == 1 then "]" + rest else "," + (ItemsText(items[1..]) + "]" + rest))))
  {
    hide Text;
    var it := items[0];
    if |items| == 1 {
      Assoc(ItemText(it), "]", rest);
      Regroup(it.pre, Text(it.value), it.post, "]" + rest);
    } else {
      var more := ItemsText(items[1..]);
      JoinLast(ItemText(it), more, "]", rest);
      Regroup(it.pre, Text(it.value), it.post, "," + (more + "]" + rest));
    }
  }

  lemma JoinLast(x: string, more: string, close: string, rest: string)
    ensures x + "," + more + close + rest == x + ("," + (more + close + rest))
  {
    Assoc(x, ",", more);
    Assoc(x, "," + more, close);
    Assoc(x, "," + more + close, rest);
    Assoc(",", more, close);
    Assoc(",", more + close, rest);
  }

  lemma MembersSplit(members: seq<Member>, rest: string)
    requires members != []
    ensures MembersText(members) + "}" + rest
            == MemberHead(members[0]) + (Text(members[0].value) + (members[0].post +
                 (if |members| == 1 then "}" + rest else "," + (MembersText(members[1..]) + "}" + rest))))
  {
    hide Text, MemberHead;
    var m := members[0];
    if |members| == 1 {
      Assoc(MemberText(m), "}", rest);
      Regroup(MemberHead(m), Text(m.value), m.post, "}" + rest);
    } else {
      var more := MembersText(members[1..]);
      JoinLast(MemberText(m), more, "}", rest);
      Regroup(MemberHead(m), Text(m.value), m.post, "," + (more + "}" + rest));
    }
  }

  lemma {:induction false} RunItems(cfg: Config, s: Scan, at: nat, items: seq<Item>, rest: string)
    requires items != [] && (forall it <- items :: ItemOk(it))
    requires Alive(s) ==> Expects(s) && s.stack != [] && s.stack[|s.stack| - 1].InArr?
    ensures Run(cfg, s, at, ItemsText(items) + "]" + rest)
            == Run(cfg, AbsorbItems(cfg, s, at, items), at + |ItemsText(items)| + 1, rest)
    decreases items
  {
    hide Run, Step, Absorb, CloseContainer;
    var it := items[0];
    assert ItemOk(it);
    var more := if |items| == 1 then "]" + rest else "," + (ItemsText(items[1..]) + "]" + rest);
    ItemsSplit(items, rest);
    if !Alive(s) {
      RunRefused(cfg, s, at, ItemsText(items) + "]" + rest);
      ItemsRefused(cfg, s, at, items);
      RunRefused(cfg, s, at + |ItemsText(items)| + 1, rest);
      return;
    }
    var i, k, j := at + |it.pre|, at + |it.pre| + |Text(it.value)|, at + |ItemText(it)|;
    RunBlank(cfg, s, at, it.pre);
    RunAfter(cfg, s, at, it.pre, s, Text(it.value) + (it.post + more));
    RunValue(cfg, s, i, it.value, it.post + more);
    var t := Absorb(cfg, s, i, it.value);
    if !Alive(t) {
      RunRefused(cfg, t, k, it.post + more);
      if |items| > 1 { ItemsRefused(cfg, t, j + 1, items[1..]); }
      RunRefused(cfg, t, at + |ItemsText(items)| + 1, rest);
      return;
    }
    AbsorbShape(cfg, s, i, it.value);
    if |items| == 1 {
      RunClose(cfg, t, k, it.post, ']', rest);
      assert it.post + more == it.post + [']'] + rest;
    } else {
      RunBlank(cfg, t, k, it.post);
      RunAfter(cfg, t, k, it.post, t, more);
      RunComma(cfg, t, j, ItemsText(items[1..]) + "]" + rest);
      RunItems(cfg, Await(t), j + 1, items[1..], rest);
    }
  }

  /** The comma between two values of an array. */
  lemma RunComma(cfg: Config, t: Scan, j: nat, rest: string)
    requires Alive(t) && t.st.ArrNext?
    ensures Run(cfg, t, j, "," + rest) == Run(cfg, Await(t), j + 1, rest)
  {
    hide Run, CloseContainer, Begin, OpenKey;
    RunCons(cfg, t, j, "," + rest);
    assert ("," + rest)[1..] == rest;
  }

  /** The comma between two members. */
  lemma RunMemberComma(cfg: Config, t: Scan, j: nat, rest: string)
    requires Alive(t) && t.st.ObjNext?
    ensures Run(cfg, t, j, "," + rest) == Run(cfg, Comma(cfg, t, j), j + 1, rest)
  {
    hide Run, CloseContainer, Begin, OpenKey;
    RunCons(cfg, t, j, "," + rest);
    assert ("," + rest)[1..] == rest;
  }

  lemma KeyOpens(cfg: Config, s: Scan, i: nat)
    requires Alive(s) && (s.st.ObjFirst? || s.st.ObjKey?)
    ensures Step(cfg, s, i, '"') == OpenKey(s, i) && Alive(OpenKey(s, i))
  {
    hide CloseContainer, Begin, KeyDone, NumberEnds, ValueDone;
  }

  lemma KeyCloses(cfg: Config, o: Scan, i: nat)
    requires Alive(o) && o.st == InStr(true)
    ensures Step(cfg, o, i, '"') == KeyDone(cfg, o)
  {
    hide Punct, KeyDone, NumberEnds, ValueDone;
  }

  /** A key, quotes and all. */
  lemma RunKey(cfg: Config, s: Scan, i: nat, key: string, rest: string)
    requires Alive(s) && (s.st.ObjFirst? || s.st.ObjKey?) && StringBody(key)
    ensures Run(cfg, s, i, "\"" + key + "\"" + rest) == Run(cfg, AbsorbKey(cfg, s, i, key), i + |key| + 2, rest)
  {
    hide Run, Step, HoldKey, KeyDone, StringBody;
    var o := OpenKey(s, i);
    var text, close := "\"" + key + "\"" + rest, "\"" + rest;
    KeyOpens(cfg, s, i);
    RunCons(cfg, s, i, text);
    assert text[1..] == key + close;
    RunBody(cfg, o, i + 1, key);
    assert "" + key == key;
    RunAfter(cfg, o, i + 1, key, o.(word := key), close);
    RunCons(cfg, o.(word := key), i + 1 + |key|, close);
    KeyCloses(cfg, o.(word := key), i + 1 + |key|);
    assert close[1..] == rest;
  }

  lemma RunColon(cfg: Config, k: Scan, at: nat, before: string, after: string, rest: string)
    requires Alive(k) && k.st.Colon? && Blank(before) && Blank(after)
    ensures Run(cfg, k, at, before + ":" + after + rest) == Run(cfg, Await(k), at + |before| + 1 + |after|, rest)
  {
    hide Run, CloseContainer, Begin, OpenKey;
    assert before + ":" + after + rest == before + (":" + (after + rest));
    RunBlank(cfg, k, at, before);
    RunAfter(cfg, k, at, before, k, ":" + (after + rest));
    RunCons(cfg, k, at + |before|, ":" + (after + rest));
    assert (":" + (after + rest))[1..] == after + rest;
    RunBlank(cfg, Await(k), at + |before| + 1, after);
    RunAfter(cfg, Await(k), at + |before| + 1, after, Await(k), rest);
  }

  /** A member up to its value. */
  lemma RunHead(cfg: Config, s: Scan, at: nat, m: Member, rest: string)
    requires Alive(s) && (s.st.ObjFirst? || s.st.ObjKey?) && MemberOk(m)
    ensures Run(cfg, s, at, MemberHead(m) + rest)
            == Run(cfg, Await(AbsorbKey(cfg, s, at + |m.pre|, m.key)), at + |MemberHead(m)|, rest)
  {
    hide Run, Step, AbsorbKey;
    var i, k := at + |m.pre|, AbsorbKey(cfg, s, at + |m.pre|, m.key);
    var colon := m.beforeColon + ":" + m.afterColon + rest;
    assert MemberHead(m) + rest == m.pre + ("\"" + m.key + "\"" + colon);
    RunBlank(cfg, s, at, m.pre);
    RunAfter(cfg, s, at, m.pre, s, "\"" + m.key + "\"" + colon);
    RunKey(cfg, s, i, m.key, colon);
    if Alive(k) {
      KeyShape(cfg, s, i, m.key);
      RunColon(cfg, k, i + |m.key| + 2, m.beforeColon, m.afterColon, rest);
    } else {
      RunRefused(cfg, k, i + |m.key| + 2, colon);
      RunRefused(cfg, k, at + |MemberHead(m)|, rest);
    }
  }

  lemma {:induction false} RunMembers(cfg: Config, s: Scan, at: nat, members: seq<Member>, rest: string)
    requires members != [] && (forall m <- members :: MemberOk(m))
    requires Alive(s) ==> (s.st.ObjFirst? || s.st.ObjKey?) && s.stack != [] && s.stack[|s.stack| - 1].InObj?
    ensures Run(cfg, s, at, MembersText(members) + "}" + rest)
            == Run(cfg, AbsorbMembers(cfg, s, at, members), at + |MembersText(members)| + 1, rest)
    decreases members
  {
    hide Run, Step, Absorb, CloseContainer, AbsorbKey, HoldComma, MemberHead;
    var m := members[0];
    assert MemberOk(m);
    var more := if |members| == 1 then "}" + rest else "," + (MembersText(members[1..]) + "}" + rest);
    MembersSplit(members, rest);
    if !Alive(s) {
      RunRefused(cfg, s, at, MembersText(members) + "}" + rest);
      MembersRefused(cfg, s, at, members);
      RunRefused(cfg, s, at + |MembersText(members)| + 1, rest);
      return;
    }
    var i := at + |MemberHead(m)|;
    var k, j := i + |Text(m.value)|, at + |MemberText(m)|;
    RunHead(cfg, s, at, m, Text(m.value) + (m.post + more));
    var q := Await(AbsorbKey(cfg, s, at + |m.pre|, m.key));
    if Alive(q) { KeyShape(cfg, s, at + |m.pre|, m.key); }
    RunValue(cfg, q, i, m.value, m.post + more);
    var t := AbsorbMember(cfg, s, at, m);
    if !Alive(t) {
      RunRefused(cfg, t, k, m.post + more);
      if |members| > 1 { MembersRefused(cfg, t, j + 1, members[1..]); }
      RunRefused(cfg, t, at + |MembersText(members)| + 1, rest);
      return;
    }
    MemberShape(cfg, s, at, m);
    if |members| == 1 {
      RunClose(cfg, t, k, m.post, '}', rest);
      assert m.post + more == m.post + ['}'] + rest;
    } else {
      RunBlank(cfg, t, k, m.post);
      RunAfter(cfg, t, k, m.post, t, more);
      RunMemberComma(cfg, t, j, MembersText(members[1..]) + "}" + rest);
      HoldCommaWhy(cfg, t, j);
      RunMembers(cfg, Comma(cfg, t, j), j + 1, members[1..], rest);
    }
  }
}
