/** Where an HTTP/1.1 message ends (section 6 of RFC 9112), decided on a buffer that grows
    (net/include/net/http.hpp).
 */
module Framer {
  import opened Options
  import opened Chunked
  import opened Parts
  import Json
  import Decimals

  // ---------------------------------------------------------------- the end of the head

  const BLANK_LINE: string := "\r\n\r\n"

  /** Where the first CRLF CRLF stands. */
  function Terminator(buf: string): (r: Option<nat>)
    ensures r.Some? ==> r.value + 4 <= |buf|
  {
    if |buf| < 4 then None
    else if buf[..4] == BLANK_LINE then Some(0)
    else
      var rest := Terminator(buf[1..]);
      if rest.None? then None else Some(rest.value + 1)
  }

  /** A terminator found stays; one not found yet ends past what was there. */
  lemma {:induction false} TerminatorStays(a: string, b: string)
    ensures Terminator(a).Some? ==> Terminator(a + b) == Terminator(a)
    ensures Terminator(a).None? && Terminator(a + b).Some? ==> Terminator(a + b).value + 4 > |a|
    decreases |a|
  {
    if |a| >= 4 {
      assert (a + b)[..4] == a[..4] && (a + b)[1..] == a[1..] + b;
      TerminatorStays(a[1..], b);
    }
  }

  method FindTerminator(buf: string) returns (at: Option<nat>)
    ensures at == Terminator(buf)
  {
    var i := 0;
    assert buf[0..] == buf;
    while i + 4 <= |buf|
      invariant i <= |buf|
      invariant var t := Terminator(buf[i..]); Terminator(buf) == if t.None? then None else Some(t.value + i)
    {
      assert buf[i..][..4] == buf[i..i + 4] && buf[i..][1..] == buf[i + 1..];
      if buf[i..i + 4] == BLANK_LINE { return Some(i); }
      i := i + 1;
    }
    return None;
  }

  // ---------------------------------------------------------------- lines

  /** Where the first line ends: the CR of its CRLF, or the end. None for a bare CR or LF. */
  function LineEnd(s: string): (r: Option<nat>)
    ensures r.Some? ==> r.value <= |s| && (r.value < |s| ==> r.value + 2 <= |s|)
  {
    var lf := IndexOf(s, '\n');
    var len := if lf < |s| then lf - 1 else |s|;
    if lf < |s| && (lf == 0 || s[lf - 1] != '\r') then None
    else if '\r' in s[..len] then None
    else Some(len)
  }

  predicate Blank(c: char) { c == ' ' || c == '\t' }

  /** A colon after a name, no fold, no blank before the colon. */
  predicate LineOk(line: string) {
    var colon := IndexOf(line, ':');
    line != "" && !Blank(line[0]) && 0 < colon < |line| && !Blank(line[colon - 1])
  }

  function NameOf(line: string): string { line[..IndexOf(line, ':')] }

  function ValueOf(line: string): string
    requires LineOk(line)
  {
    line[IndexOf(line, ':') + 1..]
  }

  function Lower(c: char): char { if 'A' <= c <= 'Z' then ((c as int) + 32) as char else c }

  predicate SameName(a: string, lower: string) {
    |a| == |lower| && forall k | 0 <= k < |a| :: Lower(a[k]) == lower[k]
  }

  // ---------------------------------------------------------------- lengths

  function TrimLeft(v: string): string { if v != "" && Blank(v[0]) then TrimLeft(v[1..]) else v }

  function TrimRight(v: string): string { if v != "" && Blank(v[|v| - 1]) then TrimRight(v[..|v| - 1]) else v }

  const SIZE_MAX: nat := 0xFFFF_FFFF_FFFF_FFFF

  /** Digits and nothing else, in 64 bits. */
  function LengthOf(value: string): Option<nat> {
    var v := TrimRight(TrimLeft(value));
    if v == "" || !Json.Digits(v) || Decimals.ValueOf(v) > SIZE_MAX then None else Some(Decimals.ValueOf(v))
  }

  // ---------------------------------------------------------------- a request's head

  /** One header line, `have` being the length stated before it. None refuses the request. */
  function TakeLine(line: string, have: Option<nat>, also: string -> bool): Option<Option<nat>> {
    if !LineOk(line) then None
    else if SameName(NameOf(line), "transfer-encoding") then None
    else if SameName(NameOf(line), "content-length") then
      var n := LengthOf(ValueOf(line));
      if n.None? || (have.Some? && have != n) || !also(line) then None else Some(n)
    else if also(line) then Some(have) else None
  }

  function WalkFrom(s: string, have: Option<nat>, also: string -> bool): Option<Option<nat>>
    decreases |s|
  {
    var e := LineEnd(s);
    if e.None? then None
    else
      var h := TakeLine(s[..e.value], have, also);
      if h.None? then None
      else if e.value == |s| then h
      else WalkFrom(s[e.value + 2..], h.value, also)
  }

  /** The length a request's head states, 0 for none. None refuses it. */
  function HeadLength(head: string, also: string -> bool): Option<nat> {
    var e := LineEnd(head);
    var h := if e.None? then None else if e.value == |head| then Some(None) else WalkFrom(head[e.value + 2..], None, also);
    if h.None? then None else Some(if h.value.None? then 0 else h.value.value)
  }

  datatype Frame = NeedMore | Error | Complete(headerLen: nat, bodyLen: nat)

  function RequestFrame(buf: string, also: string -> bool): Frame {
    var end := Terminator(buf);
    if end.None? then (if |buf| > MAX_HEADER then Error else NeedMore)
    else if end.value + 4 > MAX_HEADER then Error
    else
      var n := HeadLength(buf[..end.value], also);
      if n.None? || n.value > MAX_BODY then Error
      else if |buf| < end.value + 4 + n.value then NeedMore
      else Complete(end.value + 4, n.value)
  }

  /** Once a request is complete or refused, more bytes change nothing. */
  lemma RequestStable(a: string, b: string, also: string -> bool)
    requires !RequestFrame(a, also).NeedMore?
    ensures RequestFrame(a + b, also) == RequestFrame(a, also)
  {
    hide HeadLength, Terminator;
    TerminatorStays(a, b);
    if Terminator(a).Some? { assert (a + b)[..Terminator(a).value] == a[..Terminator(a).value]; }
  }

  /** What a buffer short of the message can still become: with the head read, the same lengths once
      the body is in, or nothing else. */
  lemma RequestNeedsExactly(a: string, b: string, also: string -> bool)
    requires RequestFrame(a, also).NeedMore? && Terminator(a).Some?
    ensures RequestFrame(a + b, also) ==
            var h, n := Terminator(a).value + 4, HeadLength(a[..Terminator(a).value], also).value;
            if |a + b| < h + n then NeedMore else Complete(h, n)
  {
    hide HeadLength, Terminator;
    TerminatorStays(a, b);
    assert (a + b)[..Terminator(a).value] == a[..Terminator(a).value];
  }

  /** The header lines from `pos` on, in a loop. */
  method WalkHead(head: string, also: string -> bool) returns (n: Option<nat>)
    ensures n == HeadLength(head, also)
  {
    hide TakeLine, LineEnd;
    var e := LineEnd(head);
    if e.None? { return None; }
    var eol := e.value;
    var have: Option<nat> := None;
    while eol < |head|
      invariant eol <= |head| && (eol < |head| ==> eol + 2 <= |head|)
      invariant HeadLength(head, also) ==
                (var h := if eol == |head| then Some(have) else WalkFrom(head[eol + 2..], have, also);
                 if h.None? then None else Some(if h.value.None? then 0 else h.value.value))
      decreases |head| - eol
    {
      var start := eol + 2;
      var next := LineEnd(head[start..]);
      if next.None? { return None; }
      var h := TakeLine(head[start..][..next.value], have, also);
      if h.None? { return None; }
      if next.value < |head[start..]| { assert head[start..][next.value + 2..] == head[start + next.value + 2..]; }
      have, eol := h.value, start + next.value;
    }
    return Some(if have.None? then 0 else have.value);
  }

  /** `parse_request`: re-run as bytes arrive. */
  method ParseRequest(buf: string, also: string -> bool) returns (r: Frame)
    ensures r == RequestFrame(buf, also)
  {
    hide HeadLength, Terminator;
    var end := FindTerminator(buf);
    if end.None? { return if |buf| > MAX_HEADER then Error else NeedMore; }
    if end.value + 4 > MAX_HEADER { return Error; }
    var n := WalkHead(buf[..end.value], also);
    if n.None? || n.value > MAX_BODY { return Error; }
    if |buf| < end.value + 4 + n.value { return NeedMore; }
    return Complete(end.value + 4, n.value);
  }

  // ---------------------------------------------------------------- a length printed is the length read

  /** Bytes of one line. */
  predicate OneLine(s: string) { '\r' !in s && '\n' !in s }

  const LENGTH_NAME: string := "Content-Length"

  function LengthField(n: nat): string { LENGTH_NAME + ":" + (" " + Decimals.Printed(n)) }

  lemma ColonAt(a: string, b: string)
    requires ':' !in a
    ensures IndexOf(a + ":" + b, ':') == |a|
  {
    var t := a + ":" + b;
    assert t[|a|] == ':' && forall k | 0 <= k < |a| :: t[k] == a[k];
  }

  lemma OneLineSum(a: string, b: string)
    requires OneLine(a) && OneLine(b)
    ensures OneLine(a + b)
  {}

  lemma DigitsLine(s: string)
    requires Json.Digits(s)
    ensures OneLine(s) && OneLine(" ") && OneLine(":") && OneLine(LENGTH_NAME)
  {}

  lemma FieldLine(n: nat)
    ensures OneLine(LengthField(n))
  {
    hide OneLine, Decimals.Printed;
    var d := Decimals.Printed(n);
    Decimals.PrintedReads(n);
    DigitsLine(d);
    OneLineSum(" ", d);
    OneLineSum(LENGTH_NAME, ":");
    OneLineSum(LENGTH_NAME + ":", " " + d);
  }

  lemma FieldParts(n: nat)
    ensures var f := LengthField(n);
            OneLine(f) && LineOk(f) && NameOf(f) == LENGTH_NAME && ValueOf(f) == " " + Decimals.Printed(n)
  {
    hide OneLine, IndexOf, Decimals.Printed;
    var a, b := LENGTH_NAME, " " + Decimals.Printed(n);
    FieldLine(n);
    ColonAt(a, b) by { assert ':' !in LENGTH_NAME; }
    var f := a + ":" + b;
    assert f[0] == a[0] && f[|a| - 1] == a[|a| - 1] && f[..|a|] == a && f[|a| + 1..] == b && |f| > |a|;
  }

  lemma LengthReads(n: nat)
    requires n <= SIZE_MAX
    ensures LengthOf(" " + Decimals.Printed(n)) == Some(n)
  {
    hide Decimals.Printed;
    var d := Decimals.Printed(n);
    Decimals.PrintedReads(n);
    assert (" " + d)[1..] == d;
    assert !Blank(d[0]) && !Blank(d[|d| - 1]);
    assert TrimLeft(" " + d) == TrimLeft(d) == d && TrimRight(d) == d;
  }

  lemma NameReads()
    ensures SameName(LENGTH_NAME, "content-length") && !SameName(LENGTH_NAME, "transfer-encoding")
  {}

  lemma LineAlone(s: string)
    requires OneLine(s)
    ensures LineEnd(s) == Some(|s|)
  {}

  lemma LineThen(s: string, more: string)
    requires OneLine(s)
    ensures LineEnd(s + "\r\n" + more) == Some(|s|)
  {
    var t := s + "\r\n" + more;
    var lf := IndexOf(t, '\n');
    assert t[|s|] == '\r' && t[|s| + 1] == '\n';
    assert forall k | 0 <= k < |s| :: t[k] == s[k];
    assert lf == |s| + 1 && t[..lf - 1] == s;
  }

  lemma TakesField(n: nat, also: string -> bool)
    requires n <= SIZE_MAX && also(LengthField(n))
    ensures TakeLine(LengthField(n), None, also) == Some(Some(n))
  {
    hide LengthField, LengthOf, LineOk, NameOf, ValueOf, SameName;
    FieldParts(n);
    NameReads();
    LengthReads(n);
  }

  /** Whatever the first line, a head that states a length in decimal states that length. */
  lemma LengthStated(line: string, n: nat, also: string -> bool)
    requires OneLine(line) && n <= SIZE_MAX && also(LengthField(n))
    ensures HeadLength(line + "\r\n" + LengthField(n), also) == Some(n)
  {
    hide LengthField, LineEnd, TakeLine;
    var f := LengthField(n);
    var head := line + "\r\n" + f;
    FieldParts(n);
    LineThen(line, f);
    LineAlone(f);
    TakesField(n, also);
    assert head[|line| + 2..] == f && f[..|f|] == f;
  }

  /** CRLF CRLF stands at `i`. */
  predicate BlankAt(s: string, i: nat) {
    i + 4 <= |s| && s[i] == '\r' && s[i + 1] == '\n' && s[i + 2] == '\r' && s[i + 3] == '\n'
  }

  lemma AtFront(s: string)
    requires |s| >= 4
    ensures s[..4] == BLANK_LINE <==> BlankAt(s, 0)
  {
    assert s[..4] == [s[0], s[1], s[2], s[3]];
  }

  /** The first is the terminator. */
  lemma {:induction false} TerminatorIs(s: string, i: nat)
    requires BlankAt(s, i) && forall j: nat | j < i :: !BlankAt(s, j)
    ensures Terminator(s) == Some(i)
    decreases i
  {
    AtFront(s);
    if i > 0 {
      assert !BlankAt(s, 0);
      forall j: nat | j < i - 1 ensures !BlankAt(s[1..], j) { assert !BlankAt(s, j + 1); }
      TerminatorIs(s[1..], i - 1);
    }
  }

  /** Two lines end at the blank line after them. */
  lemma TwoLines(a: string, b: string, rest: string)
    requires OneLine(a) && OneLine(b) && b != ""
    ensures Terminator(a + "\r\n" + b + BLANK_LINE + rest) == Some(|a| + 2 + |b|)
  {
    var t, n := a + "\r\n" + b + BLANK_LINE + rest, |a| + 2 + |b|;
    assert t[n] == '\r' && t[n + 1] == '\n' && t[n + 2] == '\r' && t[n + 3] == '\n';
    forall j: nat | j < n ensures !BlankAt(t, j) {
      if j < |a| { assert t[j] == a[j]; }
      else if j == |a| { assert t[j + 2] == b[0]; }
      else if j == |a| + 1 { assert t[j] == '\n'; }
      else { assert t[j] == b[j - |a| - 2]; }
    }
    TerminatorIs(t, n);
  }

  /** A request written with its length in decimal is framed exactly, whatever follows it. */
  lemma RequestReads(line: string, body: string, rest: string, also: string -> bool)
    requires OneLine(line) && |body| <= MAX_BODY && also(LengthField(|body|))
    requires |line| + 2 + |LengthField(|body|)| + 4 <= MAX_HEADER
    ensures var head := line + "\r\n" + LengthField(|body|);
            RequestFrame(head + BLANK_LINE + body + rest, also) == Complete(|head| + 4, |body|)
  {
    hide LengthField, HeadLength, Terminator, OneLine;
    var f := LengthField(|body|);
    var head := line + "\r\n" + f;
    var buf := head + BLANK_LINE + body + rest;
    FieldLine(|body|);
    assert f != "" by { FieldSome(|body|); }
    assert buf == line + "\r\n" + f + BLANK_LINE + (body + rest);
    TwoLines(line, f, body + rest);
    LengthStated(line, |body|, also);
    assert buf[..|head|] == head;
  }

  lemma FieldSome(n: nat)
    ensures LengthField(n) != ""
  {}

  // ---------------------------------------------------------------- a response

  /** How a response's body ends; `readHead` tells it from the head. */
  datatype Body = NoBody | Length(n: nat) | Chunks | UntilClose

  datatype Response = More | Bad | Whole(body: string, totalLen: nat)

  /** `interim`: a 1xx, which is not the answer. */
  datatype Head = Head(interim: bool, body: Body)

  function ResponseFrame(buf: string, readHead: string -> Option<Head>): Response {
    var end := Terminator(buf);
    if end.None? then (if |buf| > MAX_HEADER then Bad else More)
    else if end.value + 4 > MAX_HEADER then Bad
    else
      var h := readHead(buf[..end.value]);
      var after := buf[end.value + 4..];
      if h.None? || h.value.interim || h.value.body.UntilClose? then Bad
      else if !h.value.body.Chunks? then
        var n := if h.value.body.Length? then h.value.body.n else 0;
        if |after| < n then More else Whole(after[..n], end.value + 4 + n)
      else ChunkedFrame(after, end.value + 4)
  }

  /** A chunked body, the bytes after the head being `after`. */
  function ChunkedFrame(after: string, headerLen: nat): Response {
    var d, out := Run(START, after), Out(START, after);
    if d.st.Failed? || |out| > MAX_BODY then Bad
    else if !d.st.Done? then More
    else Whole(out, headerLen + Taken(START, after))
  }

  lemma ChunkedStable(a: string, b: string, headerLen: nat)
    requires !ChunkedFrame(a, headerLen).More?
    ensures ChunkedFrame(a + b, headerLen) == ChunkedFrame(a, headerLen)
  {
    hide Run, Out, Taken;
    Pieces(START, a, b);
    if Ended(Run(START, a)) { EndedRun(Run(START, a), b); }
  }

  /** Once a response is whole or refused, more bytes change nothing. */
  lemma ResponseStable(a: string, b: string, readHead: string -> Option<Head>)
    requires !ResponseFrame(a, readHead).More?
    ensures ResponseFrame(a + b, readHead) == ResponseFrame(a, readHead)
  {
    hide Terminator, ChunkedFrame;
    TerminatorStays(a, b);
    var end := Terminator(a);
    if end.Some? {
      assert (a + b)[..end.value] == a[..end.value];
      assert (a + b)[end.value + 4..] == a[end.value + 4..] + b;
      var h := readHead(a[..end.value]);
      if end.value + 4 <= MAX_HEADER && h.Some? && !h.value.interim && h.value.body.Chunks? {
        ChunkedStable(a[end.value + 4..], b, end.value + 4);
      }
    }
  }

  lemma {:induction false} AllTaken(d: Decoder, s: string)
    requires !Ended(Run(d, s))
    ensures Taken(d, s) == |s|
    decreases |s|
  {
    hide Step;
    if Ended(d) { EndedRun(d, s); } else if s != "" { AllTaken(Step(d, s[0]), s[1..]); }
  }

  /** Decode state kept between reads, fed only what is new. */
  class ResponseDecoder {
    const dec: ChunkDecoder
    var body: string
    var fed: nat
    ghost var seen: string      // the bytes after the head handed over

    constructor ()
      ensures Valid() && fresh(dec) && seen == ""
    {
      dec := new ChunkDecoder();
      body, fed, seen := "", 0, "";
      new;
      NothingLeft(START);
    }

    ghost predicate Valid()
      reads this, dec
    {
      && dec.State() == Run(START, seen) && body == Out(START, seen) && (dec.st.Data? ==> dec.remaining > 0)
      && (!dec.st.Failed? ==> dec.consumed == fed == Taken(START, seen))
      && (dec.st.Failed? ==> fed < |seen|)
    }

    /** `frame_response_body` for a chunked body: as if every byte had come at once. */
    method FrameChunked(after: string, headerLen: nat) returns (r: Response)
      requires Valid() && seen <= after
      modifies this, dec
      ensures Valid() && old(seen) <= seen <= after && r == ChunkedFrame(after, headerLen)
    {
      hide Run, Out, Taken;
      ghost var was := seen;
      assert after == was + after[|was|..];
      Pieces(START, was, after[|was|..]);
      if dec.st.Done? || dec.st.Failed? { EndedRun(dec.State(), after[|was|..]); } else { AllTaken(START, was); }
      if !dec.st.Done? && fed < |after| {
        if dec.st.Failed? { EndedRun(Run(START, was), after[fed..]); } else { seen := after; }
        var ok;
        ok, body := dec.Feed(after[fed..], body);
        if !ok { return Bad; }
        fed := dec.consumed;
      } else if !dec.st.Done? {
        assert seen == after;
      }
      if |body| > MAX_BODY { return Bad; }
      if !dec.st.Done? { return More; }
      return Whole(body, headerLen + dec.consumed);
    }

    /** What was handed over is of this buffer. */
    ghost predicate Follows(buf: string)
      reads this
    {
      var end := Terminator(buf);
      if end.None? then seen == "" else seen <= buf[end.value + 4..]
    }

    /** `parse_response` on a buffer that has grown since the last call: the answer is that of one
        call on the whole of it. */
    method ParseResponse(buf: string, readHead: string -> Option<Head>) returns (r: Response)
      requires Valid() && Follows(buf)
      modifies this, dec
      ensures Valid() && Follows(buf) && r == ResponseFrame(buf, readHead)
    {
      hide Terminator, Run, Out, Taken, ChunkedFrame;
      var end := FindTerminator(buf);
      if end.None? { return if |buf| > MAX_HEADER then Bad else More; }
      if end.value + 4 > MAX_HEADER { return Bad; }
      var h := readHead(buf[..end.value]);
      if h.None? || h.value.interim || h.value.body.UntilClose? { return Bad; }
      var after := buf[end.value + 4..];
      if !h.value.body.Chunks? {
        var n := if h.value.body.Length? then h.value.body.n else 0;
        return if |after| < n then More else Whole(after[..n], end.value + 4 + n);
      }
      r := FrameChunked(after, end.value + 4);
    }

    /** More bytes arriving keep what was handed over part of the buffer. */
    lemma FollowsMore(a: string, b: string)
      requires Follows(a)
      ensures Follows(a + b)
    {
      hide Terminator;
      TerminatorStays(a, b);
      var end := Terminator(a);
      if end.Some? { assert (a + b)[end.value + 4..] == a[end.value + 4..] + b; }
    }
  }

  lemma JoinRest(parts: seq<string>, n: nat)
    requires n <= |parts|
    ensures Join(parts) == Join(parts[..n]) + Join(parts[n..])
    decreases n
  {
    if n == 0 {
      NothingYet(parts);
      assert parts[0..] == parts;
    } else {
      JoinRest(parts, n - 1);
      JoinNext(parts, n - 1);
      assert parts[n - 1..][1..] == parts[n..];
    }
  }

  /** A response read as it arrives, with one decoder: every answer is that of one call on the bytes
      so far, the reading stops at the first that is whole or refused, and the last answer is that
      of one call on the whole. */
  method ReadResponse(parts: seq<string>, readHead: string -> Option<Head>) returns (answers: seq<Response>)
    ensures |answers| <= |parts| && (parts != [] ==> answers != [])
    ensures forall k | 0 <= k < |answers| :: answers[k] == ResponseFrame(Join(parts[..k + 1]), readHead)
    ensures forall k | 0 <= k < |answers| - 1 :: answers[k].More?
    ensures parts != [] ==> answers[|answers| - 1] == ResponseFrame(Join(parts), readHead)
  {
    hide ResponseFrame, Join;
    var st := new ResponseDecoder();
    var buf := "";
    answers := [];
    NothingYet(parts);
    assert st.Follows("");
    for n := 0 to |parts|
      invariant fresh(st) && fresh(st.dec) && st.Valid() && st.Follows(buf) && buf == Join(parts[..n]) && |answers| == n
      invariant forall k | 0 <= k < n :: answers[k] == ResponseFrame(Join(parts[..k + 1]), readHead) && answers[k].More?
    {
      JoinNext(parts, n);
      st.FollowsMore(buf, parts[n]);
      buf := buf + parts[n];
      var r := st.ParseResponse(buf, readHead);
      answers := answers + [r];
      if !r.More? {
        JoinRest(parts, n + 1);
        ResponseStable(buf, Join(parts[n + 1..]), readHead);
        return;
      }
    }
    assert parts[..|parts|] == parts;
  }
}
