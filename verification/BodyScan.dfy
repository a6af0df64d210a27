/** The resumable scanner itself (provider/src/body_scan.cpp): a 64-bit word for the stack, keys
    as offsets into the body, runs of string bytes taken at once, numbers that end on a byte
    read again. However the body is cut into arrivals it answers as the automaton does on the
    bytes so far.
 */
module BodyScan {
  import opened Json
  import opened Options
  import opened Automaton
  import opened KindWord
  import opened Parts

  datatype Outcome = More | Complete | Refused

  /** A key as an offset into the body and a length. */
  datatype KeySpan = KeySpan(at: nat, len: nat)

  ghost predicate SpansIn(keys: seq<KeySpan>, n: nat) {
    forall k | 0 <= k < |keys| :: keys[k].at + keys[k].len <= n
  }

  function KeyText(b: string, k: KeySpan): string
    requires k.at + k.len <= |b|
  {
    b[k.at..k.at + k.len]
  }

  /** The keys the spans name in `b`. */
  ghost function Keys(b: string, keys: seq<KeySpan>): (r: seq<string>)
    requires SpansIn(keys, |b|)
    ensures |r| == |keys|
  {
    seq(|keys|, k requires 0 <= k < |keys| => KeyText(b, keys[k]))
  }

  predicate InNumber(st: St) {
    st.NumSign? || st.NumZero? || st.NumInt? || st.NumDot? || st.NumFrac? || st.NumE? || st.NumESign? || st.NumExp?
  }

  predicate InContainer(st: St) { st.ObjFirst? || st.ObjNext? || st.ArrFirst? || st.ArrNext? }

  /** Where a plain run inside a string ends. */
  method StringStop(b: string, from: nat) returns (i: nat)
    requires from <= |b|
    ensures from <= i <= |b|
    ensures forall k | from <= k < i :: Plain(b[k])
    ensures i < |b| ==> !Plain(b[i])
  {
    i := from;
    while i < |b|
      invariant from <= i <= |b|
      invariant forall k | from <= k < i :: Plain(b[k])
    {
      if b[i] == '"' || b[i] == '\\' || b[i] < ' ' { return; }
      i := i + 1;
    }
  }

  /** A linear search of the keys read so far, compared with the body's own bytes. */
  method Known(b: string, keys: seq<KeySpan>, k: string) returns (known: bool)
    requires SpansIn(keys, |b|)
    ensures known <==> k in Keys(b, keys)
  {
    for n := 0 to |keys|
      invariant forall m | 0 <= m < n :: Keys(b, keys)[m] != k
    {
      if keys[n].len == |k| && KeyText(b, keys[n]) == k {
        assert Keys(b, keys)[n] == k;
        return true;
      }
    }
    return false;
  }

  /** A run of plain bytes leaves the state as it is but for the key it spells. */
  lemma {:induction false} RunPlain(cfg: Config, s: Scan, at: nat, text: string)
    requires Alive(s) && s.st.InStr? && forall k | 0 <= k < |text| :: Plain(text[k])
    ensures Run(cfg, s, at, text) == if s.st.key then s.(word := s.word + text) else s
    decreases |text|
  {
    hide Punct, KeyDone, ValueDone, NumberEnds;
    if text == "" {
      assert s.word + text == s.word;
    } else {
      RunPlain(cfg, Step(cfg, s, at, text[0]), at + 1, text[1..]);
      assert s.word + text == s.word + [text[0]] + text[1..];
    }
  }

  lemma RunSplit(cfg: Config, s: Scan, b: string, i: nat, j: nat)
    requires i <= j <= |b|
    ensures Run(cfg, s, i, b[i..]) == Run(cfg, Run(cfg, s, i, b[i..j]), j, b[j..])
  {
    hide Step;
    assert b[i..] == b[i..j] + b[j..];
    RunAppend(cfg, s, i, b[i..j], b[j..]);
  }

  lemma RunOne(cfg: Config, s: Scan, b: string, i: nat)
    requires i < |b|
    ensures Run(cfg, s, i, b[i..]) == Run(cfg, Step(cfg, s, i, b[i]), i + 1, b[i + 1..])
  {
    hide Step;
    assert b[i..][0] == b[i] && b[i..][1..] == b[i + 1..];
  }

  lemma KeysLonger(a: string, b: string, i: nat, keys: seq<KeySpan>)
    requires SpansIn(keys, i) && i <= |a| && i <= |b| && a[..i] == b[..i]
    ensures Keys(a, keys) == Keys(b, keys)
  {
    forall k | 0 <= k < |keys| ensures KeyText(a, keys[k]) == KeyText(b, keys[k]) {
      var from, to := keys[k].at, keys[k].at + keys[k].len;
      assert to <= i;
      assert a[..i][from..to] == a[from..to] && b[..i][from..to] == b[from..to];
    }
  }

  class BodyScan {
    var cfg: Config
    var st: St
    var kinds: bv64
    var depth: nat
    var str: nat                // where the key being read starts
    var top: seq<KeySpan>
    var options: seq<KeySpan>
    var core: Core
    var pos: nat
    var verdict: Outcome
    ghost var stack: seq<Kind>  // what `kinds` and `depth` stand for
    ghost var read: string      // every byte fed
    ghost var ended: bool       // nothing follows them

    /** Consistent, with `i` bytes of `b` read. */
    ghost predicate Valid(b: string, i: nat)
      reads this
    {
      && i <= |b| && depth == |stack| && Mirrors(kinds, stack)
      && SpansIn(top, i) && SpansIn(options, i)
      && (Spelling(st) ==> str <= i)
      && (InContainer(st) ==> depth > 0)
    }

    /** The automaton's state these fields stand for. */
    ghost function State(b: string, i: nat): Scan
      reads this
      requires Valid(b, i)
    {
      Scan(st, stack, if Spelling(st) then b[str..i] else "", Keys(b, top), Keys(b, options), core)
    }

    lemma AtStart()
      requires st == Due && kinds == 0 && depth == 0 && stack == [] && top == [] && options == [] && core == START
      requires pos == 0 && verdict == More && read == "" && !ended
      ensures Sound()
    {
      hide Mirrors, Automaton.Step;
      Empty();
    }

    /** A scanner as reset() leaves it. */
    constructor (cfg: Config)
      ensures Sound() && this.cfg == cfg && read == "" && !ended && pos == 0
    {
      hide Mirrors, Automaton.Step, Keys, Run;
      this.cfg := cfg;
      st, kinds, depth, str := Due, 0, 0, 0;
      top, options, core, pos, verdict, stack := [], [], START, 0, More, [];
      read, ended := "", false;
      new;
      AtStart();
    }

    /** The prefix that may be forwarded. */
    function SafeNow(): nat
      reads this
    {
      if core.marks.hold.Some? && core.marks.hold.value < pos then core.marks.hold.value else pos
    }

    // -------------------------------------------------------------- a value closes

    /** After a value of any kind, ending before `end`: what its container expects next. */
    method ValueDone(end: nat, ghost b: string, ghost i: nat, ghost j: nat)
      requires Valid(b, i) && !Spelling(st) && i <= j <= |b|
      modifies this`st, this`core
      ensures Valid(b, j) && State(b, j) == Automaton.ValueDone(cfg, old(State(b, i)), end)
      ensures Between(st) && !Spelling(st)
    {
      hide Mirrors, Keys, Settle;
      core := Settle(cfg, core, depth, end);
      if depth == 0 {
        st := End;
      } else {
        var obj := Top(kinds, depth, stack);
        st := if obj then ObjNext else ArrNext;
      }
    }

    /** A container's closing byte at `i`. */
    method CloseContainer(ghost b: string, i: nat)
      requires Valid(b, i) && InContainer(st) && i < |b|
      modifies this`st, this`core, this`depth, this`stack
      ensures Valid(b, i + 1) && State(b, i + 1) == Automaton.CloseContainer(cfg, old(State(b, i)), i)
    {
      hide Mirrors, Keys, Settle;
      Pop(kinds, stack);
      stack := stack[..|stack| - 1];
      depth := depth - 1;
      core := LeaveOptions(core, depth);
      st := End;
      ValueDone(i + 1, b, i, i + 1);
    }

    // -------------------------------------------------------------- a key

    method OpenKey(ghost b: string, i: nat)
      requires Valid(b, i) && !Spelling(st) && i < |b|
      modifies this`st, this`core, this`str
      ensures Valid(b, i + 1) && State(b, i + 1) == Automaton.OpenKey(old(State(b, i)), i)
    {
      hide Mirrors, Keys, HoldKey;
      core := HoldKey(core, depth, i);
      str := i + 1;
      st := InStr(true);
    }

    /** The closed key joins the keys of its object. */
    method KeySet(b: string, k: KeySpan, ghost j: nat)
      requires Valid(b, j) && !Spelling(st) && k.at + k.len <= j
      modifies this`core, this`top, this`options
      ensures Valid(b, j) && State(b, j) == Automaton.KeySet(cfg, old(State(b, j)), KeyText(b, k))
    {
      hide Mirrors;
      if core.why != Good || !cfg.allKeys { return; }
      var keys := if depth == 1 then top else options;
      var known := Known(b, keys, KeyText(b, k));
      core := KeyRule(core, known, |keys|);
      if core.why != Good { return; }
      assert Keys(b, keys + [k]) == Keys(b, keys) + [KeyText(b, k)];
      if depth == 1 {
        top := keys + [k];
        core := core.(optionsNext := KeyText(b, k) == "stream_options");
      } else {
        options := keys + [k];
      }
    }

    /** A key closed by the quote at `end`. */
    method KeyDone(b: string, end: nat)
      requires Valid(b, end) && st == InStr(true) && end < |b|
      modifies this`st, this`core, this`top, this`options
      ensures Valid(b, end + 1) && State(b, end + 1) == Automaton.KeyDone(cfg, old(State(b, end)))
    {
      hide Mirrors, Keys, KeyHold, KeyModel, Automaton.KeySet;
      st := Colon;
      if !Tracked(core, depth) { return; }
      var k := KeySpan(str, end - str);
      if '\\' in KeyText(b, k) {
        core := core.(why := EscapedKey);
        return;
      }
      core := KeyModel(cfg, KeyHold(cfg, core, depth, KeyText(b, k)), depth, KeyText(b, k));
      KeySet(b, k, end + 1);
    }

    // -------------------------------------------------------------- a value opens

    method Push(ghost b: string, i: nat, kind: Kind, inOptions: bool)
      requires Valid(b, i) && !Spelling(st) && i < |b|
      modifies this`st, this`core, this`kinds, this`depth, this`stack
      ensures Valid(b, i + 1) && State(b, i + 1) == Automaton.Push(cfg, old(State(b, i)), i, kind, inOptions)
    {
      hide Keys, Enter;
      if depth == MAX_DEPTH {
        core := core.(why := TooDeep);
        return;
      }
      kinds := KindWord.Push(kinds, depth, kind, stack);
      stack := stack + [kind];
      depth := depth + 1;
      core := Enter(cfg, core, depth, i, kind, inOptions);
      st := if kind.InObj? then ObjFirst else ArrFirst;
    }

    /** A value's first byte at `i`. */
    method Begin(b: string, i: nat)
      requires Valid(b, i) && Between(st) && i < |b|
      modifies this`st, this`core, this`kinds, this`depth, this`stack
      ensures Valid(b, i + 1) && State(b, i + 1) == Automaton.Begin(cfg, old(State(b, i)), i, b[i])
    {
      hide Mirrors, Keys, StartValue, Automaton.Push;
      var c, inOptions := b[i], core.optionsNext;
      core := StartValue(cfg, core, depth, i, c);
      if core.why != Good { return; }
      if c == '{' {
        Push(b, i, InObj, inOptions);
      } else if c == '[' {
        Push(b, i, InArr, inOptions);
      } else if ScalarState(c).End? {
        core := core.(why := BadJson);
      } else {
        st := ScalarState(c);
      }
    }

    // -------------------------------------------------------------- one step

    /** The byte at `i`, between tokens. */
    method Punct(b: string, i: nat)
      requires Valid(b, i) && Between(st) && i < |b|
      modifies this`st, this`core, this`kinds, this`depth, this`stack, this`str
      ensures Valid(b, i + 1) && State(b, i + 1) == Automaton.Punct(cfg, old(State(b, i)), i, b[i])
    {
      hide Mirrors, Keys, Automaton.CloseContainer, Automaton.Begin, Automaton.OpenKey, HoldComma;
      var c := b[i];
      if Ws(c) { return; }
      if st.Colon? {
        st := Due;
        if c != ':' { core := core.(why := BadJson); }
      } else if st.ObjFirst? || st.ObjKey? {
        if c == '}' && st.ObjFirst? { CloseContainer(b, i); }
        else if c == '"' { OpenKey(b, i); }
        else { core := core.(why := BadJson); }
      } else if st.ObjNext? {
        if c == ',' { core := HoldComma(cfg, core, depth, i); st := ObjKey; }
        else if c == '}' { CloseContainer(b, i); }
        else { core := core.(why := BadJson); }
      } else if st.ArrNext? {
        if c == ',' { st := Due; }
        else if c == ']' { CloseContainer(b, i); }
        else { core := core.(why := BadJson); }
      } else if st.ArrFirst? && c == ']' {
        CloseContainer(b, i);
      } else if st.End? {
        core := core.(why := ContentAfter);
      } else {
        Begin(b, i);
      }
    }

    /** The automaton's answer once the rest of `b` is read. */
    ghost function Rest(b: string, i: nat): Scan
      reads this
      requires Valid(b, i)
    {
      Run(cfg, State(b, i), i, b[i..])
    }

    /** This object took the step the automaton takes, so the rest is the automaton's rest. */
    lemma Stepped(s: Scan, b: string, i: nat)
      requires i < |b| && Valid(b, i + 1) && Alive(s)
      requires core == Step(cfg, s, i, b[i]).core
      requires core.why == Good ==> State(b, i + 1) == Step(cfg, s, i, b[i])
      ensures core.why == Good ==> Rest(b, i + 1) == Run(cfg, s, i, b[i..])
      ensures core.why != Good ==> core == Run(cfg, s, i, b[i..]).core
    {
      hide Mirrors, Keys, Step;
      RunOne(cfg, s, b, i);
      if core.why != Good { RunRefused(cfg, Step(cfg, s, i, b[i]), i + 1, b[i + 1..]); }
    }

    lemma RunToStop(b: string, i: nat, j: nat)
      requires Valid(b, i) && st.InStr? && core.why == Good && i <= j <= |b|
      requires forall k | i <= k < j :: Plain(b[k])
      ensures Valid(b, j) && Rest(b, j) == Rest(b, i)
    {
      hide Mirrors, Keys, Step;
      RunSplit(cfg, State(b, i), b, i, j);
      RunPlain(cfg, State(b, i), i, b[i..j]);
      if Spelling(st) { assert b[str..i] + b[i..j] == b[str..j]; }
    }

    /** A backslash and the byte after it, when that is not `u`. */
    lemma RunEscape(b: string, i: nat)
      requires Valid(b, i) && st.InStr? && core.why == Good && i + 1 < |b| && b[i] == '\\' && b[i + 1] != 'u'
      ensures Valid(b, i + 2)
      ensures ShortEscape(b[i + 1]) ==> Rest(b, i + 2) == Rest(b, i)
      ensures !ShortEscape(b[i + 1]) ==> Rest(b, i).core == core.(why := BadJson)
    {
      hide Mirrors, Keys, Automaton.Punct, Automaton.ValueDone, Automaton.KeyDone, NumberEnds;
      var s := State(b, i);
      var t := Step(cfg, s, i, b[i]);
      RunOne(cfg, s, b, i);
      RunOne(cfg, t, b, i + 1);
      var u := Step(cfg, t, i + 1, b[i + 1]);
      if Spelling(st) { assert b[str..i] + [b[i]] + [b[i + 1]] == b[str..i + 2]; }
      if !ShortEscape(b[i + 1]) { RunRefused(cfg, u, i + 2, b[i + 2..]); }
    }

    /** A run of plain bytes and two-byte escapes: prose carries one every few words. */
    method StringRun(b: string, i0: nat) returns (i: nat)
      requires Valid(b, i0) && st.InStr? && core.why == Good && i0 < |b|
      modifies this`core
      ensures i0 <= i <= |b| && Valid(b, i) && (i < |b| && core.why == Good ==> !Plain(b[i]))
      ensures core.why == Good ==> core == old(core) && Rest(b, i) == old(Rest(b, i0))
      ensures core.why != Good ==> core == old(Rest(b, i0)).core
    {
      hide Mirrors, Keys, Run, Step;
      i := StringStop(b, i0);
      RunToStop(b, i0, i);
      while i + 1 < |b| && b[i] == '\\'
        invariant i0 <= i <= |b| && Valid(b, i) && core == old(core)
        invariant i < |b| ==> !Plain(b[i])
        invariant Rest(b, i) == old(Rest(b, i0))
      {
        var e := b[i + 1];
        if e == 'u' { break; }
        RunEscape(b, i);
        if !ShortEscape(e) {
          core := core.(why := BadJson);
          return;
        }
        var j := StringStop(b, i + 2);
        RunToStop(b, i + 2, j);
        i := j;
      }
    }

    /** The byte that ended a run inside a string. */
    method StringByte(b: string, i: nat)
      requires Valid(b, i) && st.InStr? && core.why == Good && i < |b| && !Plain(b[i])
      modifies this`st, this`core, this`top, this`options
      ensures Valid(b, i + 1)
      ensures core.why == Good ==> Rest(b, i + 1) == old(Rest(b, i))
      ensures core.why != Good ==> core == old(Rest(b, i)).core
    {
      hide Mirrors, Keys, Automaton.Punct, Settle, Automaton.KeyDone, NumberEnds, Run;
      ghost var s := State(b, i);
      if b[i] == '\\' {
        st := StrEsc(st.key);
        if Spelling(st) { assert b[str..i + 1] == b[str..i] + [b[i]]; }
      } else if b[i] != '"' {
        core := core.(why := ControlByte);
      } else if !st.key {
        ValueDone(i + 1, b, i, i + 1);
      } else {
        KeyDone(b, i);
      }
      Stepped(s, b, i);
    }

    /** The byte at `i` of an escape or a literal. */
    method StepSpelled(b: string, i: nat)
      requires Valid(b, i) && (st.StrEsc? || st.StrHex? || st.InLit?) && core.why == Good && i < |b|
      modifies this`st, this`core
      ensures Valid(b, i + 1)
      ensures core.why == Good ==> Rest(b, i + 1) == old(Rest(b, i))
      ensures core.why != Good ==> core == old(Rest(b, i)).core
    {
      hide Mirrors, Keys, Automaton.Punct, Settle, Automaton.KeyDone, NumberEnds, Run;
      ghost var s := State(b, i);
      var c := b[i];
      if Spelling(st) { assert b[str..i + 1] == b[str..i] + [c]; }
      if st.StrEsc? {
        if c == 'u' {
          st := StrHex(st.key, 0);
        } else {
          st := InStr(st.key);
          if !ShortEscape(c) { core := core.(why := BadJson); }
        }
      } else if st.StrHex? {
        st := if st.digits + 1 == 4 then InStr(st.key) else StrHex(st.key, st.digits + 1);
        if !Hex(c) { core := core.(why := BadJson); }
      } else {
        var text := LiteralText(st.literal);
        if st.read >= |text| || c != text[st.read] {
          core := core.(why := BadJson);
        } else if st.read + 1 == |text| {
          ValueDone(i + 1, b, i, i + 1);
        } else {
          st := InLit(st.literal, st.read + 1);
        }
      }
      Stepped(s, b, i);
    }

    /** A number ended before the byte at `i`, which its container reads. */
    method NumberEnd(b: string, i: nat)
      requires Valid(b, i) && NumberFinal(st) && core.why == Good && i < |b|
      requires Automaton.Step(cfg, State(b, i), i, b[i]) == NumberEnds(cfg, State(b, i), i, b[i])
      modifies this`st, this`core
      ensures Valid(b, i) && Between(st) && core.why == Good && Rest(b, i) == old(Rest(b, i))
    {
      hide Mirrors, Keys, Automaton.Punct, Settle, Automaton.KeyDone, Run, LiteralText;
      RunOne(cfg, State(b, i), b, i);
      ValueDone(i, b, i, i);
      RunOne(cfg, State(b, i), b, i);
    }

    /** The byte at `i` of a number, or the number's end, which leaves the byte unread. */
    method StepNumber(b: string, i: nat) returns (j: nat)
      requires Valid(b, i) && InNumber(st) && core.why == Good && i < |b|
      modifies this`st, this`core
      ensures i <= j <= i + 1 && Valid(b, j) && (j == i ==> Between(st))
      ensures core.why == Good ==> Rest(b, j) == old(Rest(b, i))
      ensures core.why != Good ==> core == old(Rest(b, i)).core
    {
      hide Mirrors, Keys, Automaton.Punct, Settle, Automaton.KeyDone, Run, LiteralText, NumberEnds;
      ghost var s := State(b, i);
      var c := b[i];
      if st.NumSign? || st.NumDot? || st.NumESign? || (st.NumE? && c != '+' && c != '-') {
        st := if st.NumDot? then NumFrac else if !st.NumSign? then NumExp
              else if c == '0' then NumZero else NumInt;
        if !Digit(c) { core := core.(why := BadJson); }
      } else if st.NumE? {
        st := NumESign;
      } else if Digit(c) {
        if st.NumZero? { core := core.(why := BadJson); } // a leading zero stands alone
      } else if c == '.' && (st.NumZero? || st.NumInt?) {
        st := NumDot;
      } else if (c == 'e' || c == 'E') && !st.NumExp? {
        st := NumE;
      } else {
        NumberEnd(b, i);
        return i;
      }
      Stepped(s, b, i);
      return i + 1;
    }

    /** One byte, or a run of string bytes. */
    method Advance(b: string, i: nat) returns (j: nat)
      requires Valid(b, i) && core.why == Good && i < |b|
      modifies this`st, this`core, this`top, this`options, this`kinds, this`depth, this`stack, this`str
      ensures i <= j <= |b| && Valid(b, j) && (j == i && core.why == Good ==> InNumber(old(st)) && Between(st))
      ensures core.why == Good ==> Rest(b, j) == old(Rest(b, i))
      ensures core.why != Good ==> core == old(Rest(b, i)).core
    {
      hide Mirrors, Keys, Automaton.Punct, Settle, Automaton.KeyDone, Run, NumberEnds, Automaton.ValueDone;
      if st.InStr? {
        j := StringRun(b, i);
        if core.why == Good && j < |b| {
          StringByte(b, j);
          j := j + 1;
        }
      } else if st.StrEsc? || st.StrHex? || st.InLit? {
        StepSpelled(b, i);
        j := i + 1;
      } else if InNumber(st) {
        j := StepNumber(b, i);
      } else {
        ghost var s := State(b, i);
        Punct(b, i);
        Stepped(s, b, i);
        j := i + 1;
      }
    }

    // -------------------------------------------------------------- arrivals

    /** What the automaton says of the bytes read so far, all of them once `ended`. */
    ghost function Answer(): Scan
      reads this
    {
      if ended then Finish(Run(cfg, INIT, 0, read)) else Run(cfg, INIT, 0, read)
    }

    /** This object agrees with the automaton. A refusal is final. */
    ghost predicate Sound()
      reads this
    {
      && core == Answer().core
      && (verdict == if !Alive(Answer()) then Refused else if ended then Complete else More)
      && (verdict == More ==> pos == |read| && Valid(read, pos) && State(read, pos) == Answer())
      && (verdict == Complete ==> pos == |read| && st == Answer().st)
    }

    /** Bytes past the ones read leave this state's offsets meaning what they did. */
    lemma Longer(a: string, b: string, i: nat)
      requires Valid(a, i) && i <= |b| && a[..i] == b[..i]
      ensures Valid(b, i) && State(b, i) == State(a, i)
    {
      hide Mirrors;
      KeysLonger(a, b, i, top);
      KeysLonger(a, b, i, options);
      if Spelling(st) { assert a[..i][str..i] == b[..i][str..i]; }
    }

    /** Every byte of `body` not read yet; false when one refuses. */
    method Consume(body: string) returns (i: nat)
      requires pos <= |body| && Valid(body, pos) && core.why == Good
      modifies this`st, this`core, this`top, this`options, this`kinds, this`depth, this`stack, this`str
      ensures core.why == Good ==> i == |body| && Valid(body, i) && State(body, i) == old(Rest(body, pos))
      ensures core.why != Good ==> core == old(Rest(body, pos)).core
    {
      hide Mirrors, Keys, Automaton.Step;
      i := pos;
      while i < |body|
        invariant pos <= i <= |body| && Valid(body, i) && core.why == Good
        invariant Rest(body, i) == old(Rest(body, pos))
        decreases |body| - i, if InNumber(st) then 1 else 0
      {
        i := Advance(body, i);
        if core.why != Good { return; }
      }
    }

    /** Scans `body` from where the last call stopped; `body` holds every byte so far. */
    method Feed(body: string, last: bool) returns (v: Outcome)
      requires Sound() && !ended && read <= body
      modifies this
      ensures Sound() && read == body && ended == last && cfg == old(cfg) && v == verdict
      ensures pos == if Alive(Run(cfg, INIT, 0, body)) then |body| else old(pos)
    {
      hide Mirrors, Keys, Automaton.Step;
      assert body == read + body[|read|..];
      RunAppend(cfg, INIT, 0, read, body[|read|..]);
      if verdict != More {
        RunRefused(cfg, Answer(), |read|, body[|read|..]);
        read, ended := body, last;
        return verdict;
      }
      Longer(read, body, pos);
      var i := Consume(body);
      read, ended := body, last;
      if core.why != Good {
        verdict := Refused;
        return verdict;
      }
      pos := i;
      if last { EndInput(); }
      return verdict;
    }

    /** Nothing follows. */
    method EndInput()
      requires pos == |read| && Valid(read, pos) && State(read, pos) == Run(cfg, INIT, 0, read)
      requires core.why == Good && verdict == More && ended
      modifies this`st, this`core, this`verdict
      ensures Sound()
    {
      hide Mirrors, Keys, Run;
      if depth == 0 && NumberFinal(st) { st := End; } // a number at the root ends with the body
      if st.End? {
        verdict := Complete;
      } else {
        verdict, core := Refused, core.(why := EndsInside);
      }
    }
  }

  // ---------------------------------------------------------------- a body in arrivals

  /** The bytes of the first `k` arrivals, less the one in which a byte was refused and those after. */
  function Reached(cfg: Config, parts: seq<string>, k: nat): nat
    requires k <= |parts|
  {
    if k == 0 then 0
    else if Alive(Run(cfg, INIT, 0, Join(parts[..k]))) then |Join(parts[..k])|
    else Reached(cfg, parts, k - 1)
  }

  /** However a body is cut into arrivals, verdict, reason and spans are those of the whole. So is
      the safe point while no byte is refused; once one is, it stays at what the arrivals before
      that byte's allow. */
  method ScanParts(cfg: Config, parts: seq<string>) returns (v: Outcome, marks: Marks, why: Why, safe: nat)
    ensures v == Complete <==> Done(Verdict(cfg, Join(parts)))
    ensures marks == Verdict(cfg, Join(parts)).core.marks && why == Verdict(cfg, Join(parts)).core.why
    ensures v == Complete || v == Refused
    ensures safe == Safe(Verdict(cfg, Join(parts)), Reached(cfg, parts, |parts|))
    ensures Alive(Run(cfg, INIT, 0, Join(parts))) ==> safe == Safe(Verdict(cfg, Join(parts)), |Join(parts)|)
  {
    hide Automaton.Step, Run;
    var scan := new BodyScan(cfg);
    var body := "";
    v := More;
    NothingYet(parts);
    for n := 0 to |parts|
      invariant scan.Sound() && scan.read == body && scan.cfg == cfg && fresh(scan)
      invariant body == Join(parts[..n]) && scan.pos == Reached(cfg, parts, n)
      invariant scan.ended <==> n == |parts| && n > 0
      invariant n > 0 ==> v == scan.verdict
    {
      JoinNext(parts, n);
      body := body + parts[n];
      v := scan.Feed(body, n + 1 == |parts|);
    }
    assert parts[..|parts|] == parts;
    if parts == [] {
      v := scan.Feed(body, true);
      assert body == "";
    }
    marks, why, safe := scan.core.marks, scan.core.why, scan.SafeNow();
    WholeReached(cfg, parts);
  }

  lemma WholeReached(cfg: Config, parts: seq<string>)
    ensures Alive(Run(cfg, INIT, 0, Join(parts))) ==> Reached(cfg, parts, |parts|) == |Join(parts)|
  {
    hide Automaton.Step, Run;
    assert parts[..|parts|] == parts;
  }
}
