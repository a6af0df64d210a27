/** The chunk frames the gateway writes (gateway/src/stream.hpp), and that the decoder reads back
    exactly what was framed.
 */
module ChunkFrames {
  import opened Options
  import opened Parts
  import opened Json
  import opened Numbers
  import opened Chunked

  const DIGITS: string := "0123456789abcdef"

  /** `n` in hex, no leading zero. */
  function HexText(n: nat): string {
    if n == 0 then "" else HexText(n / 16) + [DIGITS[n % 16]]
  }

  lemma {:induction false} HexTextReads(n: nat)
    ensures AllHex(HexText(n)) && HexValue(HexText(n)) == n && (n > 0 ==> HexText(n) != "")
  {
    if n > 0 {
      HexTextReads(n / 16);
      var s := HexText(n);
      assert s[..|s| - 1] == HexText(n / 16);
      DigitReads(n % 16);
    }
  }

  lemma DigitReads(d: nat)
    requires d < 16
    ensures Hex(DIGITS[d]) && DigitValue(DIGITS[d]) == d
  {}

  lemma {:induction false} HexTextLength(n: nat, k: nat)
    requires n < Power(16, k)
    ensures |HexText(n)| <= k
    decreases k
  {
    if n > 0 && k > 0 { HexTextLength(n / 16, k - 1); }
  }

  /** A frame: size, CRLF, payload, CRLF. */
  function Frame(payload: string): string { HexText(|payload|) + "\r\n" + payload + "\r\n" }

  const LAST: string := "0\r\n\r\n"

  function Frames(payloads: seq<string>): string {
    if payloads == [] then "" else Frame(payloads[0]) + Frames(payloads[1..])
  }

  /** Wraps what was appended at or after `pos` in one frame. Nothing appended, nothing written. */
  method ChunkWrap(chunked: bool, out0: string, pos: nat) returns (out: string)
    ensures out == if chunked && pos < |out0| then out0[..pos] + Frame(out0[pos..]) else out0
  {
    if !chunked || |out0| <= pos { return out0; }
    var header := "\r\n";
    var n: nat := |out0| - pos;
    while n > 0
      invariant HexText(|out0| - pos) + "\r\n" == HexText(n) + header
    {
      assert HexText(n) + header == HexText(n / 16) + ([DIGITS[n % 16]] + header);
      header := [DIGITS[n % 16]] + header;
      n := n / 16;
    }
    assert HexText(0) + header == header;
    out := out0[..pos] + header + out0[pos..] + "\r\n";
    WrapJoin(out0[..pos], header, out0[pos..]);
  }

  lemma WrapJoin(a: string, b: string, c: string)
    ensures a + b + c + "\r\n" == a + (b + c + "\r\n")
  {}

  method ChunkTerminate(chunked: bool, out0: string) returns (out: string)
    ensures out == if chunked then out0 + LAST else out0
  {
    return if chunked then out0 + "0\r\n\r\n" else out0;
  }

  // ---------------------------------------------------------------- what the decoder makes of a frame

  /** `text` takes the decoder from `d` to `e`, whole, appending `out`. */
  predicate Takes(d: Decoder, text: string, e: Decoder, out: string) {
    Run(d, text) == e && Out(d, text) == out && Taken(d, text) == |text|
  }

  lemma TakesTwo(d: Decoder, a: string, e: Decoder, x: string, b: string, f: Decoder, y: string)
    requires Takes(d, a, e, x) && Takes(e, b, f, y)
    ensures Takes(d, a + b, f, x + y)
  {
    hide Run, Out, Taken;
    Pieces(d, a, b);
  }

  lemma NoNewline(s: string)
    requires AllHex(s)
    ensures '\n' !in s && '\r' !in s
  {}

  lemma SizeReads(digits: string)
    requires AllHex(digits) && digits != "" && HexValue(digits) <= MAX_BODY
    ensures SizeOf(digits) == Some(HexValue(digits))
  {
    PrefixIs(digits, |digits|);
    assert digits[..|digits|] == digits && digits[|digits|..] == "";
  }

  /** A size line. */
  lemma TakesSize(digits: string)
    requires AllHex(digits) && digits != "" && HexValue(digits) <= MAX_BODY && |digits| <= 7
    ensures var n := HexValue(digits);
            Takes(START, digits + "\r\n", Decoder(if n == 0 then Trailer else Data, n, ""), "")
  {
    hide SizeOf, HexValue, Run, Out, Taken;
    NoNewline(digits);
    SizeReads(digits);
    RunLine(START, digits + "\r");
    var d := START.(line := digits + "\r");
    assert "" + (digits + "\r") == digits + "\r";
    var line := digits + "\r" + "\n";
    assert line[..|line| - 2] == digits;
    OneMore(d, '\n');
    TakesTwo(START, digits + "\r", d, "", "\n", Step(d, '\n'), "");
    assert digits + "\r\n" == digits + "\r" + "\n";
  }

  lemma OneMore(d: Decoder, c: char)
    requires !Ended(d) && !d.st.Data?
    ensures Takes(d, [c], Step(d, c), "")
  {
    hide Step;
    assert [c][1..] == "";
    NothingLeft(Step(d, c));
  }

  lemma TakesCrLf(d: Decoder)
    requires d.st.DataCrlf? && d.line == ""
    ensures Takes(d, "\r\n", Decoder(Size, d.remaining, ""), "")
  {
    var e := Step(d, '\r');
    assert e == d.(line := "\r");
    OneMore(d, '\r');
    OneMore(e, '\n');
    TakesTwo(d, "\r", e, "", "\n", Step(e, '\n'), "");
    assert "\r" + "\n" == "\r\n";
  }

  /** A frame decodes to its payload. */
  lemma TakesFrame(payload: string)
    requires 0 < |payload| <= MAX_BODY
    ensures Takes(START, Frame(payload), START, payload)
  {
    hide Takes, HexText, Run, Out, Taken;
    var n := |payload|;
    var digits := HexText(n);
    HexTextReads(n);
    assert n < Power(16, 7);
    HexTextLength(n, 7);
    TakesSize(digits);
    var d, e := Decoder(Data, n, ""), Decoder(DataCrlf, 0, "");
    TakesPayload(d, payload);
    TakesTwo(START, digits + "\r\n", d, "", payload, e, payload);
    assert "" + payload == payload;
    TakesCrLf(e);
    TakesTwo(START, digits + "\r\n" + payload, e, payload, "\r\n", START, "");
    assert payload + "" == payload;
  }

  /** A size past the cap is refused at its line's end, or where the line gets too long. */
  lemma RefusesSize(digits: string)
    requires AllHex(digits) && digits != "" && HexValue(digits) > MAX_BODY
    ensures Run(START, digits + "\r\n").st.Failed?
  {
    hide SizeOf, HexValue, Run, Out, Taken;
    var w := digits + "\r\n";
    var n := if |w| <= MAX_SIZE_LINE then |w| - 1 else MAX_SIZE_LINE;
    NoNewline(digits);
    NoSize(digits);
    assert '\n' !in w[..n];
    RunLine(START, w[..n]);
    var d := START.(line := w[..n]);
    assert "" + w[..n] == w[..n];
    assert w[..n] + [w[n]] == w[..n + 1];
    if n + 1 == |w| { assert w[..n + 1] == w && w[..|w| - 2] == digits; }
    assert Step(d, w[n]).st.Failed?;
    OneMore(d, w[n]);
    Pieces(START, w[..n], [w[n]]);
    Pieces(START, w[..n + 1], w[n + 1..]);
    assert w == w[..n + 1] + w[n + 1..];
    EndedRun(Step(d, w[n]), w[n + 1..]);
  }

  lemma NoSize(digits: string)
    requires AllHex(digits) && HexValue(digits) > MAX_BODY
    ensures SizeOf(digits).None?
  {
    PrefixIs(digits, |digits|);
    assert digits[..|digits|] == digits;
  }

  lemma RefusesFrame(payload: string, rest: string)
    requires |payload| > MAX_BODY
    ensures Run(START, Frame(payload) + rest).st.Failed?
  {
    hide HexText, Run, Out, Taken;
    var digits := HexText(|payload|);
    HexTextReads(|payload|);
    RefusesSize(digits);
    var line, more := digits + "\r\n", payload + "\r\n" + rest;
    FrameSplits(digits, payload, rest);
    Pieces(START, line, more);
    EndedRun(Run(START, line), more);
  }

  lemma FrameSplits(digits: string, payload: string, rest: string)
    ensures digits + "\r\n" + payload + "\r\n" + rest == (digits + "\r\n") + (payload + "\r\n" + rest)
  {}

  lemma TakesPayload(d: Decoder, payload: string)
    requires d.st.Data? && d.remaining == |payload| > 0
    ensures Takes(d, payload, Decoder(DataCrlf, 0, d.line), payload)
  {
    RunData(d, payload);
  }

  lemma TakesLast()
    ensures exists d: Decoder :: d.st.Done? && Takes(START, LAST, d, "")
  {
    hide Takes, Run, Out, Taken, Step;
    assert AllHex("0") && HexValue("0") == 0 by { ZeroReads(); }
    TakesSize("0");
    var d := Decoder(Trailer, 0, "");
    assert Takes(START, "0" + "\r\n", d, "");
    var f := BlankLine(d);
    TakesTwo(START, "0" + "\r\n", d, "", "\r\n", f, "");
    assert "0" + "\r\n" + "\r\n" == LAST;
    assert "" + "" == "";
  }

  lemma ZeroReads()
    ensures AllHex("0") && HexValue("0") == 0
  {
    assert "0"[..0] == "";
  }

  lemma BlankLine(d: Decoder) returns (f: Decoder)
    requires d == Decoder(Trailer, 0, "")
    ensures f.st.Done? && Takes(d, "\r\n", f, "")
  {
    var e := Step(d, '\r');
    assert e == d.(line := "\r");
    f := Step(e, '\n');
    OneMore(d, '\r');
    OneMore(e, '\n');
    TakesTwo(d, "\r", e, "", "\n", f, "");
    assert "\r" + "\n" == "\r\n";
  }

  lemma {:induction false} TakesFrames(payloads: seq<string>)
    requires forall p <- payloads :: 0 < |p| <= MAX_BODY
    ensures Takes(START, Frames(payloads), START, Join(payloads))
    decreases |payloads|
  {
    hide Takes, Frame;
    if payloads == [] {
      assert Takes(START, "", START, "") by { TakesNothing(); }
    } else {
      TakesFrame(payloads[0]);
      TakesFrames(payloads[1..]);
      TakesTwo(START, Frame(payloads[0]), START, payloads[0], Frames(payloads[1..]), START, Join(payloads[1..]));
    }
  }

  lemma TakesNothing()
    ensures Takes(START, "", START, "")
  {}

  /** Round trip: payloads framed and terminated decode to their concatenation. The decoder is done
      exactly at the last byte, and takes none of what follows. */
  lemma FramedReadsBack(payloads: seq<string>, rest: string)
    requires forall p <- payloads :: 0 < |p| <= MAX_BODY
    ensures var text := Frames(payloads) + LAST;
            && Run(START, text + rest).st.Done? && Out(START, text + rest) == Join(payloads)
            && Taken(START, text + rest) == |text|
            && forall n | 0 <= n < |text| :: !Run(START, text[..n]).st.Done?
  {
    hide Run, Out, Taken, Step, Frames, Join;
    var text := Frames(payloads) + LAST;
    TakesFrames(payloads);
    TakesLast();
    var d: Decoder :| d.st.Done? && Takes(START, LAST, d, "");
    TakesTwo(START, Frames(payloads), START, Join(payloads), LAST, d, "");
    Pieces(START, text, rest);
    EndedRun(d, rest);
    forall n | 0 <= n < |text| ensures !Run(START, text[..n]).st.Done? { NotBefore(text, n); }
  }

  lemma NotBefore(text: string, n: nat)
    requires n < |text| && Taken(START, text) == |text|
    ensures !Run(START, text[..n]).st.Done?
  {
    hide Run, Out, Taken, Step;
    assert text == text[..n] + text[n..];
    Pieces(START, text[..n], text[n..]);
    if Run(START, text[..n]).st.Done? { EndedRun(Run(START, text[..n]), text[n..]); }
  }

  /** One payload past the decoder's cap, and it fails. */
  lemma {:induction false} FramesRefused(payloads: seq<string>, rest: string)
    requires (forall p <- payloads :: 0 < |p|) && exists p <- payloads :: |p| > MAX_BODY
    ensures Run(START, Frames(payloads) + rest).st.Failed?
    decreases |payloads|
  {
    hide Takes, Frame, Run, Out, Taken;
    var f, more := Frame(payloads[0]), Frames(payloads[1..]);
    assert f + more + rest == f + (more + rest);
    if |payloads[0]| > MAX_BODY {
      RefusesFrame(payloads[0], more + rest);
    } else {
      TakesFrame(payloads[0]);
      FramesRefused(payloads[1..], rest);
      TakesThen(START, f, START, payloads[0], more + rest);
    }
  }

  lemma TakesThen(d: Decoder, a: string, e: Decoder, x: string, rest: string)
    requires Takes(d, a, e, x)
    ensures Run(d, a + rest) == Run(e, rest)
  {
    hide Run, Out, Taken;
    Pieces(d, a, rest);
  }

  /** The payloads that hold anything: an empty one is not framed, since an empty chunk ends the stream. */
  function Nonempty(payloads: seq<string>): seq<string> {
    if payloads == [] then []
    else Nonempty(payloads[..|payloads| - 1]) + if payloads[|payloads| - 1] == "" then [] else [payloads[|payloads| - 1]]
  }

  lemma {:induction false} NonemptyJoins(payloads: seq<string>)
    ensures Join(Nonempty(payloads)) == Join(payloads) && forall p :: p in Nonempty(payloads) <==> p in payloads && p != ""
    decreases |payloads|
  {
    if payloads != [] {
      var front, last := payloads[..|payloads| - 1], payloads[|payloads| - 1];
      assert payloads == front + [last];
      NonemptyJoins(front);
      JoinSnoc(front, last);
      if last != "" { JoinSnoc(Nonempty(front), last); } else { assert Nonempty(front) + [] == Nonempty(front); }
    }
  }

  lemma {:induction false} FramesMore(payloads: seq<string>, p: string)
    ensures Frames(payloads + [p]) == Frames(payloads) + Frame(p)
    decreases |payloads|
  {
    hide Frame;
    if payloads == [] {
      assert payloads + [p] == [p];
      assert [p][1..] == [];
    } else {
      assert (payloads + [p])[1..] == payloads[1..] + [p];
      FramesMore(payloads[1..], p);
    }
  }

  /** No payload is past the size the decoder takes. */
  predicate Fit(payloads: seq<string>) { forall p <- payloads :: |p| <= MAX_BODY }

  /** What the decoder makes of a stream, whatever follows it. */
  ghost predicate ReadBack(wire: string, payloads: seq<string>) {
    forall rest: string ::
      && Run(START, wire + rest).st.Done? && Out(START, wire + rest) == Join(payloads)
      && Taken(START, wire + rest) == |wire|
  }

  lemma StreamReadsBack(payloads: seq<string>)
    ensures var wire := Frames(Nonempty(payloads)) + LAST;
            && (Fit(payloads) ==> ReadBack(wire, payloads) && forall n | 0 <= n < |wire| :: !Run(START, wire[..n]).st.Done?)
            && (!Fit(payloads) ==> Run(START, wire).st.Failed?)
  {
    hide Run, Out, Taken, Frames, Join, Nonempty;
    var wire := Frames(Nonempty(payloads)) + LAST;
    NonemptyJoins(payloads);
    if Fit(payloads) {
      FramedReadsBack(Nonempty(payloads), "");
      forall rest: string
        ensures Run(START, wire + rest).st.Done? && Out(START, wire + rest) == Join(payloads) && Taken(START, wire + rest) == |wire|
      {
        FramedReadsBack(Nonempty(payloads), rest);
      }
    } else {
      FramesRefused(Nonempty(payloads), LAST);
    }
  }

  /** A stream written as the gateway does, each payload appended and wrapped, then the end: the
      decoder reads the payloads back whatever follows, done at its last byte and not before, exactly
      when each fits; else it fails. */
  method WriteStream(payloads: seq<string>) returns (wire: string)
    ensures Fit(payloads) ==> ReadBack(wire, payloads) && forall n | 0 <= n < |wire| :: !Run(START, wire[..n]).st.Done?
    ensures !Fit(payloads) ==> Run(START, wire).st.Failed?
  {
    hide Run, Out, Taken, Frame, Join, Fit, ReadBack;
    wire := "";
    assert payloads[..0] == [];
    for k := 0 to |payloads|
      invariant wire == Frames(Nonempty(payloads[..k]))
    {
      var p := payloads[k];
      assert payloads[..k + 1][..k] == payloads[..k];
      FramesMore(Nonempty(payloads[..k]), p);
      var pos := |wire|;
      ghost var was := wire;
      wire := wire + p;
      assert p != "" ==> wire[..pos] == was && wire[pos..] == p;
      assert Nonempty(payloads[..k]) + [] == Nonempty(payloads[..k]);
      wire := ChunkWrap(true, wire, pos);
    }
    assert payloads[..|payloads|] == payloads;
    wire := ChunkTerminate(true, wire);
    StreamReadsBack(payloads);
  }
}
