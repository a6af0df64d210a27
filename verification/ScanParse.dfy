/** The converse of ScanGrammar: bytes the automaton takes to its end are the text of a tree. */
module ScanParse {
  import opened Json
  import opened Automaton
  import opened ScanGrammar

  /** The run over `text` reaches the end of the root. */
  predicate Reaches(cfg: Config, s: Scan, at: nat, text: string) { Done(Run(cfg, s, at, text)) }

  lemma ReachesAlive(cfg: Config, s: Scan, at: nat, text: string)
    requires Reaches(cfg, s, at, text)
    ensures Alive(s)
  {
    hide Step, Run;
    if !Alive(s) { RunRefused(cfg, s, at, text); }
  }

  /** A run that reaches the end takes its first byte. */
  lemma ReachesNext(cfg: Config, s: Scan, at: nat, text: string)
    requires Reaches(cfg, s, at, text) && !s.st.End?
    ensures text != "" && Alive(s) && Alive(Step(cfg, s, at, text[0]))
    ensures Reaches(cfg, Step(cfg, s, at, text[0]), at + 1, text[1..])
  {
    hide Step;
    ReachesAlive(cfg, s, at, text);
    if text != "" { ReachesAlive(cfg, Step(cfg, s, at, text[0]), at + 1, text[1..]); }
  }

  lemma {:induction false} SplitBlank(text: string) returns (ws: string, rest: string)
    ensures text == ws + rest && Blank(ws) && (rest != "" ==> !Ws(rest[0]))
  {
    if text == "" || !Ws(text[0]) { return "", text; }
    var w, r := SplitBlank(text[1..]);
    return [text[0]] + w, r;
  }

  /** Skips the blank a state between tokens may read. */
  lemma SkipBlank(cfg: Config, s: Scan, at: nat, text: string) returns (ws: string, rest: string)
    requires Reaches(cfg, s, at, text) && Between(s.st)
    ensures text == ws + rest && Blank(ws) && (rest != "" ==> !Ws(rest[0]))
    ensures Reaches(cfg, s, at + |ws|, rest) && (rest == "" ==> s.st.End?)
  {
    hide Step, Run;
    ws, rest := SplitBlank(text);
    RunBlank(cfg, s, at, ws);
    RunAfter(cfg, s, at, ws, s, rest);
    if rest == "" { RunNone(cfg, s, at + |ws|); }
  }

  // ---------------------------------------------------------------- strings

  /** Inside a string, the bytes up to the closing quote are string contents. */
  lemma {:induction false} ParseBody(cfg: Config, s: Scan, at: nat, text: string) returns (raw: string, rest: string)
    requires Reaches(cfg, s, at, text) && s.st.InStr?
    ensures text == raw + "\"" + rest && StringBody(raw)
    decreases |text|
  {
    hide Punct, KeyDone, ValueDone, NumberEnds, Run;
    ReachesNext(cfg, s, at, text);
    var c := text[0];
    if c == '"' { return "", text[1..]; }
    var t, text1 := Step(cfg, s, at, c), text[1..];
    if c != '\\' {
      var r, q := ParseBody(cfg, t, at + 1, text1);
      return [c] + r, q;
    }
    ReachesNext(cfg, t, at + 1, text1);
    var u := Step(cfg, t, at + 1, text1[0]);
    if text1[0] != 'u' {
      var r, q := ParseBody(cfg, u, at + 2, text1[1..]);
      return [c, text1[0]] + r, q;
    }
    var w, h, text2 := ParseHex(cfg, u, at + 2, text1[1..]);
    var r, q := ParseBody(cfg, w, at + 6, text2);
    raw, rest := [c, 'u'] + h + r, q;
    assert raw[6..] == r;
  }

  lemma HexNext(cfg: Config, s: Scan, at: nat, text: string) returns (t: Scan)
    requires Reaches(cfg, s, at, text) && s.st.StrHex? && s.st.digits < 4
    ensures text != "" && Hex(text[0]) && Reaches(cfg, t, at + 1, text[1..])
    ensures t.st == if s.st.digits == 3 then InStr(s.st.key) else StrHex(s.st.key, s.st.digits + 1)
  {
    hide Punct, KeyDone, ValueDone, NumberEnds, Run;
    ReachesNext(cfg, s, at, text);
    t := Step(cfg, s, at, text[0]);
  }

  lemma ParseHex(cfg: Config, s: Scan, at: nat, text: string) returns (t: Scan, h: string, rest: string)
    requires Reaches(cfg, s, at, text) && s.st.StrHex? && s.st.digits == 0
    ensures |h| == 4 && Hex(h[0]) && Hex(h[1]) && Hex(h[2]) && Hex(h[3])
    ensures text == h + rest && t.st == InStr(s.st.key) && Reaches(cfg, t, at + 4, rest)
  {
    hide Step, Run;
    var a := HexNext(cfg, s, at, text);
    var b := HexNext(cfg, a, at + 1, text[1..]);
    assert text[1..][1..] == text[2..];
    var c := HexNext(cfg, b, at + 2, text[2..]);
    assert text[2..][1..] == text[3..];
    t := HexNext(cfg, c, at + 3, text[3..]);
    assert text[3..][1..] == text[4..];
    h, rest := text[..4], text[4..];
  }

  // ---------------------------------------------------------------- numbers and literals

  lemma {:induction false} SplitDigits(text: string) returns (ds: string, rest: string)
    ensures text == ds + rest && Digits(ds) && (rest != "" ==> !Digit(rest[0]))
  {
    if text == "" || !Digit(text[0]) { return "", text; }
    var d, r := SplitDigits(text[1..]);
    return [text[0]] + d, r;
  }

  /** Reads digits on from a state that loops on them. */
  lemma ParseDigits(cfg: Config, s: Scan, at: nat, text: string) returns (ds: string, rest: string)
    requires Reaches(cfg, s, at, text) && (s.st.NumInt? || s.st.NumFrac? || s.st.NumExp?)
    ensures text == ds + rest && Digits(ds) && rest != "" && !Digit(rest[0])
    ensures Reaches(cfg, s, at + |ds|, rest)
  {
    hide Step, Run;
    ds, rest := SplitDigits(text);
    ReachesAlive(cfg, s, at, text);
    RunDigits(cfg, s, at, ds);
    RunAfter(cfg, s, at, ds, s, rest);
    if rest == "" { RunNone(cfg, s, at + |ds|); }
  }

  /** A byte a number cannot take is one that may follow a value. */
  lemma StopEnds(cfg: Config, s: Scan, at: nat, c: char)
    requires Alive(s) && NumberFinal(s.st) && Alive(Step(cfg, s, at, c)) && !Digit(c)
    requires c == '.' ==> s.st.NumFrac? || s.st.NumExp?
    requires c == 'e' || c == 'E' ==> s.st.NumExp?
    ensures Ends(c)
  {
    hide KeyDone, CloseContainer, Settle;
  }

  /** The digits of an exponent, after its mark. */
  lemma ParseExpDigits(cfg: Config, u: Scan, j: nat, text: string) returns (exp: string, rest: string)
    requires Reaches(cfg, u, j, text) && (u.st.NumESign? || u.st.NumE?) && text != ""
    requires u.st.NumE? ==> text[0] != '+' && text[0] != '-'
    ensures text == exp + rest && exp != "" && Digits(exp) && rest != "" && Ends(rest[0])
  {
    hide Punct, KeyDone, ValueDone, NumberEnds, Run;
    ReachesNext(cfg, u, j, text);
    var w := Step(cfg, u, j, text[0]);
    assert w.st == NumExp && Digit(text[0]);
    hide Step;
    var ds, r := ParseDigits(cfg, w, j + 1, text[1..]);
    ReachesNext(cfg, w, j + 1 + |ds|, r);
    StopEnds(cfg, w, j + 1 + |ds|, r[0]);
    exp, rest := [text[0]] + ds, r;
  }

  lemma ParseExponent(cfg: Config, s: Scan, at: nat, text: string) returns (mark: string, exp: string, rest: string)
    requires Reaches(cfg, s, at, text) && (s.st.NumZero? || s.st.NumInt? || s.st.NumFrac?)
    requires text != "" && !Digit(text[0]) && (text[0] == '.' ==> s.st.NumFrac?)
    ensures text == mark + exp + rest && rest != "" && Ends(rest[0])
    ensures Digits(exp) && (mark == "" <==> exp == "") && (mark == "" || MarkOk(mark))
  {
    hide Punct, KeyDone, ValueDone, NumberEnds, Run;
    ReachesNext(cfg, s, at, text);
    if text[0] != 'e' && text[0] != 'E' {
      StopEnds(cfg, s, at, text[0]);
      return "", "", text;
    }
    var t, text1 := Step(cfg, s, at, text[0]), text[1..];
    ReachesNext(cfg, t, at + 1, text1);
    if text1[0] == '+' || text1[0] == '-' {
      var u := Step(cfg, t, at + 1, text1[0]);
      ReachesNext(cfg, u, at + 2, text1[1..]);
      exp, rest := ParseExpDigits(cfg, u, at + 2, text1[1..]);
      mark := [text[0], text1[0]];
    } else {
      exp, rest := ParseExpDigits(cfg, t, at + 1, text1);
      mark := [text[0]];
    }
  }

  /** A fraction, if any, then an exponent, if any. */
  lemma ParseTail(cfg: Config, s: Scan, at: nat, text: string)
      returns (frac: string, mark: string, exp: string, rest: string)
    requires Reaches(cfg, s, at, text) && (s.st.NumZero? || s.st.NumInt?)
    requires text != "" && !Digit(text[0])
    ensures text == Tail(frac, mark, exp) + rest && rest != "" && Ends(rest[0])
    ensures Digits(frac) && Digits(exp) && (mark == "" <==> exp == "") && (mark == "" || MarkOk(mark))
  {
    hide Punct, KeyDone, ValueDone, NumberEnds, Run;
    if text[0] != '.' {
      mark, exp, rest := ParseExponent(cfg, s, at, text);
      frac := "";
      assert Tail(frac, mark, exp) == mark + exp;
      return;
    }
    ReachesNext(cfg, s, at, text);
    var t, text1 := Step(cfg, s, at, '.'), text[1..];
    ReachesNext(cfg, t, at + 1, text1);
    var u := Step(cfg, t, at + 1, text1[0]);
    assert u.st == NumFrac && Digit(text1[0]);
    var ds, r := ParseDigits(cfg, u, at + 2, text1[1..]);
    mark, exp, rest := ParseExponent(cfg, u, at + 2 + |ds|, r);
    frac := [text1[0]] + ds;
    assert text == Fraction(frac) + (mark + exp + rest);
  }

  /** The digits of a number whose first byte, after any minus, is `text[0]`. */
  lemma ParseDigitsFrom(cfg: Config, s: Scan, at: nat, text: string) returns (n: Number, rest: string)
    requires text != "" && Digit(text[0]) && s.st == (if text[0] == '0' then NumZero else NumInt)
    requires Reaches(cfg, s, at + 1, text[1..])
    ensures NumberOk(n) && !n.minus && text == n.whole + (Tail(n.frac, n.mark, n.exp) + rest)
    ensures rest != "" && Ends(rest[0])
  {
    hide Run, Tail;
    var text1 := text[1..];
    var frac, mark, exp;
    if text[0] == '0' {
      ZeroNext(cfg, s, at + 1, text1);
      frac, mark, exp, rest := ParseTail(cfg, s, at + 1, text1);
      n := Number(false, "0", frac, mark, exp);
    } else {
      var ds, r := ParseDigits(cfg, s, at + 1, text1);
      frac, mark, exp, rest := ParseTail(cfg, s, at + 1 + |ds|, r);
      n := Number(false, [text[0]] + ds, frac, mark, exp);
      assert text == n.whole + r;
    }
  }

  lemma ZeroNext(cfg: Config, s: Scan, at: nat, text: string)
    requires Reaches(cfg, s, at, text) && s.st.NumZero?
    ensures text != "" && !Digit(text[0])
  {
    hide Punct, KeyDone, ValueDone, NumberEnds, Run;
    ReachesNext(cfg, s, at, text);
  }

  lemma ParseNumber(cfg: Config, s: Scan, at: nat, text: string) returns (n: Number, rest: string)
    requires text != "" && (text[0] == '-' || Digit(text[0])) && s.st == ScalarState(text[0])
    requires Reaches(cfg, s, at + 1, text[1..])
    ensures NumberOk(n) && text == NumberText(n) + rest && rest != "" && Ends(rest[0])
  {
    hide Step, Run, NumberOk, NumberText, Tail;
    if text[0] != '-' {
      n, rest := ParseDigitsFrom(cfg, s, at, text);
      NumberParts(n, rest);
    } else {
      var text1 := text[1..];
      var d := AfterMinus(cfg, s, at + 1, text1);
      var m;
      m, rest := ParseDigitsFrom(cfg, d, at + 1, text1);
      n := m.(minus := true);
      MinusOk(m);
      NumberParts(n, rest);
      assert text == "-" + text1;
    }
  }

  lemma MinusOk(n: Number)
    requires NumberOk(n)
    ensures NumberOk(n.(minus := true))
  {}

  lemma AfterMinus(cfg: Config, s: Scan, at: nat, text: string) returns (d: Scan)
    requires Reaches(cfg, s, at, text) && s.st.NumSign?
    ensures text != "" && Digit(text[0]) && d.st == (if text[0] == '0' then NumZero else NumInt)
    ensures Reaches(cfg, d, at + 1, text[1..])
  {
    hide Punct, KeyDone, ValueDone, NumberEnds, Run;
    ReachesNext(cfg, s, at, text);
    d := Step(cfg, s, at, text[0]);
  }

  lemma {:induction false} ParseLiteral(cfg: Config, s: Scan, at: nat, l: Literal, n: nat, text: string)
      returns (rest: string)
    requires s.st == InLit(l, n) && 1 <= n < |LiteralText(l)| && Reaches(cfg, s, at, text)
    ensures text == LiteralText(l)[n..] + rest
    decreases |LiteralText(l)| - n
  {
    hide Punct, KeyDone, Settle, NumberEnds, Run;
    ReachesNext(cfg, s, at, text);
    if n + 1 == |LiteralText(l)| { return text[1..]; }
    var r := ParseLiteral(cfg, Step(cfg, s, at, text[0]), at + 1, l, n + 1, text[1..]);
    assert LiteralText(l)[n..] == [text[0]] + LiteralText(l)[n + 1..];
    return r;
  }

  // ---------------------------------------------------------------- values

  /** A value begins here, at a byte that is neither blank nor the end of an empty array. */
  predicate AtValue(s: Scan, text: string) {
    Expects(s) && text != "" && !Ws(text[0]) && (s.st.ArrFirst? ==> text[0] != ']')
  }

  lemma ReachesBegin(cfg: Config, s: Scan, at: nat, text: string)
    requires Reaches(cfg, s, at, text) && AtValue(s, text)
    ensures var b := Begin(cfg, s, at, text[0]);
            Alive(s) && Alive(b) && b.word == "" && Reaches(cfg, b, at + 1, text[1..])
    ensures var b := Begin(cfg, s, at, text[0]);
            if text[0] == '[' then b.st == ArrFirst && b.stack == s.stack + [InArr]
            else if text[0] == '{' then b.st == ObjFirst && b.stack == s.stack + [InObj]
            else b.st == ScalarState(text[0]) && !b.st.End?
  {
    hide CloseContainer, OpenKey, HoldComma, StartValue, Enter, Run;
    ReachesNext(cfg, s, at, text);
  }

  /** A scalar, from its first byte. */
  lemma ParseScalar(cfg: Config, b: Scan, at: nat, text: string) returns (v: Value, rest: string)
    requires text != "" && text[0] != '[' && text[0] != '{' && Reaches(cfg, b, at + 1, text[1..])
    requires b.st == ScalarState(text[0]) && !b.st.End?
    ensures ValueOk(v) && text == Text(v) + rest && (v.Num? ==> rest != "" && Ends(rest[0]))
  {
    hide Step, Run, NumberText, NumberOk;
    if text[0] == '"' {
      var raw, r := ParseBody(cfg, b, at + 1, text[1..]);
      v, rest := Str(raw), r;
    } else if text[0] == '-' || Digit(text[0]) {
      var n, r := ParseNumber(cfg, b, at, text);
      v, rest := Num(n), r;
    } else {
      var l := if text[0] == 't' then True else if text[0] == 'f' then False else Null;
      rest := ParseLiteral(cfg, b, at + 1, l, 1, text[1..]);
      v := Lit(l);
      assert Text(v) == [text[0]] + LiteralText(l)[1..];
    }
  }

  lemma {:induction false} ParseValue(cfg: Config, s: Scan, at: nat, text: string) returns (v: Value, rest: string)
    requires Reaches(cfg, s, at, text) && AtValue(s, text)
    ensures ValueOk(v) && text == Text(v) + rest
    ensures Reaches(cfg, Absorb(cfg, s, at, v), at + |Text(v)|, rest)
    decreases |text|, 1
  {
    hide Step, Run, Begin, Absorb;
    ReachesBegin(cfg, s, at, text);
    var b := Begin(cfg, s, at, text[0]);
    if text[0] == '[' || text[0] == '{' {
      v, rest := ParseContainer(cfg, b, at, text);
    } else {
      v, rest := ParseScalar(cfg, b, at, text);
    }
    RunValue(cfg, s, at, v, rest);
  }

  lemma {:induction false} ParseContainer(cfg: Config, b: Scan, at: nat, text: string) returns (v: Value, rest: string)
    requires text != "" && Reaches(cfg, b, at + 1, text[1..]) && b.stack != [] && b.word == ""
    requires (text[0] == '[' && b.st == ArrFirst && b.stack[|b.stack| - 1].InArr?) ||
             (text[0] == '{' && b.st == ObjFirst && b.stack[|b.stack| - 1].InObj?)
    ensures (v.Arr? || v.Obj?) && ValueOk(v) && text == Text(v) + rest
    decreases |text|, 0
  {
    hide Step, Run;
    var ws, r := SkipBlank(cfg, b, at + 1, text[1..]);
    if text[0] == '[' {
      if r[0] == ']' {
        v, rest := Arr(ws, []), r[1..];
      } else {
        var items, q := ParseItems(cfg, b, at + 1, ws, r);
        v, rest := Arr("", items), q;
      }
    } else {
      if r[0] == '}' {
        v, rest := Obj(ws, []), r[1..];
      } else {
        var members, q := ParseMembers(cfg, b, at + 1, ws, r);
        v, rest := Obj("", members), q;
      }
    }
  }

  /** What follows an element: a comma or the end of the array. */
  lemma ReachesArrNext(cfg: Config, t: Scan, at: nat, text: string)
    requires Reaches(cfg, t, at, text) && t.st.ArrNext? && text != "" && !Ws(text[0])
    ensures text[0] == ',' || text[0] == ']'
    ensures text[0] == ',' ==> Reaches(cfg, Await(t), at + 1, text[1..])
  {
    hide CloseContainer, Begin, OpenKey, Run;
    ReachesNext(cfg, t, at, text);
  }

  lemma {:induction false} ParseItems(cfg: Config, s: Scan, at: nat, pre: string, text: string)
      returns (items: seq<Item>, rest: string)
    requires Blank(pre) && AtValue(s, text) && s.stack != [] && s.stack[|s.stack| - 1].InArr?
    requires Reaches(cfg, s, at + |pre|, text)
    ensures items != [] && (forall it <- items :: ItemOk(it)) && pre + text == ItemsText(items) + "]" + rest
    decreases |text|, 2
  {
    hide Step, Run, Absorb, Text;
    var v, r := ParseValue(cfg, s, at + |pre|, text);
    var t, j := Absorb(cfg, s, at + |pre|, v), at + |pre| + |Text(v)|;
    ReachesAlive(cfg, t, j, r);
    AbsorbShape(cfg, s, at + |pre|, v);
    TextLong(v);
    var post, r2 := SkipBlank(cfg, t, j, r);
    ReachesArrNext(cfg, t, j + |post|, r2);
    var it := Item(pre, v, post);
    assert pre + text == ItemText(it) + r2;
    assert ItemOk(it);
    if r2[0] == ']' {
      items, rest := [it], r2[1..];
    } else {
      var pre2, text2 := SkipBlank(cfg, Await(t), j + |post| + 1, r2[1..]);
      var more, q := ParseItems(cfg, Await(t), j + |post| + 1, pre2, text2);
      items, rest := [it] + more, q;
      assert items[1..] == more;
      assert r2 == "," + (ItemsText(more) + "]" + q);
    }
  }

  lemma TextLong(v: Value)
    requires ValueOk(v)
    ensures Text(v) != ""
  {
    hide ItemsText, MembersText;
  }

  lemma ReachesObjNext(cfg: Config, t: Scan, at: nat, text: string)
    requires Reaches(cfg, t, at, text) && t.st.ObjNext? && text != "" && !Ws(text[0])
    ensures text[0] == ',' || text[0] == '}'
    ensures text[0] == ',' ==> Reaches(cfg, Comma(cfg, t, at), at + 1, text[1..])
  {
    hide CloseContainer, Begin, OpenKey, Run;
    ReachesNext(cfg, t, at, text);
  }

  /** A key, from its opening quote. */
  lemma ParseKey(cfg: Config, s: Scan, i: nat, text: string) returns (key: string, rest: string)
    requires Reaches(cfg, s, i, text) && (s.st.ObjFirst? || s.st.ObjKey?) && text != "" && !Ws(text[0])
    requires s.st.ObjFirst? ==> text[0] != '}'
    ensures StringBody(key) && text == "\"" + key + "\"" + rest
    ensures Reaches(cfg, AbsorbKey(cfg, s, i, key), i + |key| + 2, rest)
  {
    hide CloseContainer, Begin, KeyDone, HoldKey, Run, ValueDone, NumberEnds;
    ReachesNext(cfg, s, i, text);
    key, rest := ParseBody(cfg, OpenKey(s, i), i + 1, text[1..]);
    RunKey(cfg, s, i, key, rest);
    assert text == "\"" + key + "\"" + rest;
  }

  /** The colon after a key. */
  lemma ParseColon(cfg: Config, k: Scan, at: nat, text: string) returns (before: string, after: string, rest: string)
    requires Reaches(cfg, k, at, text) && k.st.Colon?
    ensures text == before + ":" + after + rest && Blank(before) && Blank(after)
    ensures rest != "" && !Ws(rest[0]) && Reaches(cfg, Await(k), at + |before| + 1 + |after|, rest)
  {
    hide CloseContainer, Begin, OpenKey, Run;
    var r, q;
    before, r := SkipBlank(cfg, k, at, text);
    ReachesNext(cfg, k, at + |before|, r);
    after, q := SkipBlank(cfg, Await(k), at + |before| + 1, r[1..]);
    rest := q;
    assert r == ":" + r[1..];
  }

  /** One member, the blank before its key skipped already. */
  lemma {:induction false} ParseMember(cfg: Config, s: Scan, at: nat, pre: string, text: string)
      returns (m: Member, rest: string)
    requires Blank(pre) && Reaches(cfg, s, at + |pre|, text) && text != "" && !Ws(text[0])
    requires (s.st.ObjFirst? && text[0] != '}') || s.st.ObjKey?
    ensures MemberOk(m) && m.pre == pre && m.post == "" && pre + text == MemberText(m) + rest && |rest| < |text|
    ensures Reaches(cfg, AbsorbMember(cfg, s, at, m), at + |MemberText(m)|, rest)
    decreases |text|, 2
  {
    hide Step, Run, Absorb, AbsorbKey, Text;
    var i := at + |pre|;
    var key, r := ParseKey(cfg, s, i, text);
    var k := AbsorbKey(cfg, s, i, key);
    ReachesAlive(cfg, k, i + |key| + 2, r);
    KeyShape(cfg, s, i, key);
    var before, after, r2 := ParseColon(cfg, k, i + |key| + 2, r);
    var head := pre + "\"" + key + "\"" + before + ":" + after;
    var v, q := ParseValue(cfg, Await(k), at + |head|, r2);
    m, rest := Member(pre, key, before, after, v, ""), q;
    assert MemberHead(m) == head;
    assert pre + text == head + r2;
  }

  lemma {:induction false} ParseMembers(cfg: Config, s: Scan, at: nat, pre: string, text: string)
      returns (members: seq<Member>, rest: string)
    requires Blank(pre) && Reaches(cfg, s, at + |pre|, text) && text != "" && !Ws(text[0])
    requires (s.st.ObjFirst? && text[0] != '}') || s.st.ObjKey?
    requires s.stack != [] && s.stack[|s.stack| - 1].InObj?
    ensures members != [] && (forall m <- members :: MemberOk(m)) && pre + text == MembersText(members) + "}" + rest
    decreases |text|, 3
  {
    hide Step, Run, Absorb, AbsorbKey, MemberHead, Text;
    var m0, r := ParseMember(cfg, s, at, pre, text);
    var t, j := AbsorbMember(cfg, s, at, m0), at + |MemberText(m0)|;
    ReachesAlive(cfg, t, j, r);
    MemberShape(cfg, s, at, m0);
    var post, r2 := SkipBlank(cfg, t, j, r);
    ReachesObjNext(cfg, t, j + |post|, r2);
    var m := m0.(post := post);
    assert MemberHead(m) == MemberHead(m0) by { HeadPost(m0, post); }
    assert pre + text == MemberText(m) + r2;
    assert MemberOk(m);
    if r2[0] == '}' {
      members, rest := [m], r2[1..];
    } else {
      var s2 := Comma(cfg, t, j + |post|);
      HoldCommaWhy(cfg, t, j + |post|);
      var pre2, text2 := SkipBlank(cfg, s2, j + |post| + 1, r2[1..]);
      var more, q := ParseMembers(cfg, s2, j + |post| + 1, pre2, text2);
      members, rest := [m] + more, q;
      assert members[1..] == more;
      assert r2 == "," + (MembersText(more) + "}" + q);
    }
  }

  lemma HeadPost(m: Member, post: string)
    ensures MemberHead(m.(post := post)) == MemberHead(m)
  {}

  // ---------------------------------------------------------------- the whole body

  /** Ending the input is reading one more blank, as far as accepting goes. */
  lemma FinishIsBlank(cfg: Config, s: Scan, at: nat)
    ensures Done(Finish(s)) <==> Done(Step(cfg, s, at, ' '))
  {
    hide CloseContainer, Begin, OpenKey, KeyDone;
  }

  /** A body the automaton takes whole is the text of a tree. */
  lemma ParseDoc(cfg: Config, body: string) returns (d: Doc)
    requires Done(Verdict(cfg, body))
    ensures DocOk(d) && DocText(d) == body && Alive(Absorb(cfg, INIT, |d.pre|, d.value))
  {
    hide Step, Run, Absorb, Text;
    RunAppend(cfg, INIT, 0, body, " ");
    var end := Run(cfg, INIT, 0, body);
    RunCons(cfg, end, |body|, " ");
    assert " "[0] == ' ' && " "[1..] == "";
    RunNone(cfg, Step(cfg, end, |body|, ' '), |body| + 1);
    FinishIsBlank(cfg, end, |body|);
    var pre, text := SkipBlank(cfg, INIT, 0, body + " ");
    var v, rest := ParseValue(cfg, INIT, |pre|, text);
    var t := Absorb(cfg, INIT, |pre|, v);
    ReachesAlive(cfg, t, |pre| + |Text(v)|, rest);
    AbsorbShape(cfg, INIT, |pre|, v);
    var post, none := SkipBlank(cfg, t, |pre| + |Text(v)|, rest);
    if none != "" { NothingAfter(cfg, t, |pre| + |Text(v)| + |post|, none); }
    TextLast(v);
    var whole := pre + Text(v) + post;
    assert whole == body + " ";
    LastBlank(pre, Text(v), post, body);
    d := Doc(pre, v, post[..|post| - 1]);
    assert body == whole[..|whole| - 1];
  }

  lemma LastBlank(pre: string, text: string, post: string, body: string)
    requires pre + text + post == body + " " && text != "" && text[|text| - 1] != ' '
    ensures post != ""
  {
    assert (pre + text)[|pre + text| - 1] == text[|text| - 1];
    assert (body + " ")[|body|] == ' ';
  }

  lemma NothingAfter(cfg: Config, t: Scan, at: nat, text: string)
    requires Reaches(cfg, t, at, text) && t.st.End? && text != ""
    ensures Ws(text[0])
  {
    hide Run;
    RunCons(cfg, t, at, text);
    ReachesAlive(cfg, Step(cfg, t, at, text[0]), at + 1, text[1..]);
  }

  /** No value ends in a blank. */
  lemma TextLast(v: Value)
    requires ValueOk(v)
    ensures Text(v) != "" && Text(v)[|Text(v)| - 1] != ' '
  {
    hide ItemsText, MembersText;
    match v {
      case Num(n) =>
        if n.exp != "" { assert Digit(n.exp[|n.exp| - 1]); }
        else if n.frac != "" { assert Digit(n.frac[|n.frac| - 1]); }
        else { assert Digit(n.whole[|n.whole| - 1]); }
      case _ =>
    }
  }
}
