/** A request body forwarded to its venue as it arrives (gateway/src/core/body.cpp): one client
    connection's buffer, its scan, and the venue's staged bytes. `Valid` is what every arrival,
    confirm, refusal, resend and timeout keeps.
 */
module Upload {
  import opened Options
  import opened Automaton
  import opened SafePoints
  import opened Splicing
  import opened SpliceStream
  import opened SpliceAppend
  import opened UploadFacts
  import opened Deadlines
  import opened Numbers
  import BodyScan
  import Slots

  /** What the policy makes of the whole body, asked before its last byte leaves. */
  datatype Confirm = Keep | Refuse | Redo

  /** A venue reset before its body was whole: what it got, and the length it was told. */
  datatype CutOff = CutOff(bytes: string, declared: nat)

  // ---------------------------------------------------------------- what the scan tells

  lemma ScanTells(scan: BodyScan.BodyScan)
    requires scan.Sound() && scan.verdict != BodyScan.Refused
    ensures AliveOn(scan.cfg, scan.read) && scan.core.marks == MarksOf(scan.cfg, scan.read)
    ensures scan.SafeNow() == SafeOf(scan.cfg, scan.read) <= |scan.read|
    ensures scan.ended ==> Done(Verdict(scan.cfg, scan.read)) && scan.SafeNow() == |scan.read|
  {
    hide Step, Run;
    assert scan.read[..|scan.read|] == scan.read;
    var end := Run(scan.cfg, INIT, 0, scan.read);
    if scan.ended {
      assert Done(Verdict(scan.cfg, scan.read));
      DoneSafe(scan.cfg, scan.read);
    }
    SafeGrows(scan.cfg, scan.read, |scan.read|, |scan.read|);
  }

  /** A head decision's last byte waits for its confirm. */
  function Withheld(pending: bool, safe: nat, bodyLen: nat): nat {
    if pending && safe == bodyLen && safe > 0 then safe - 1 else safe
  }

  // ---------------------------------------------------------------- one upload

  class Upload {
    const cfg: Config
    const headerLen: nat
    const bodyLen: nat
    const scanned: bool         // the body is JSON the gateway checks or splices
    const headDecided: bool     // a policy decided on the head, so the last byte awaits its confirm
    const limits: Limits
    const start: int
    const scan: BodyScan.BodyScan
    const slots: Slots.Slots    // the engine's, shared by every upload

    var rbuf: string
    var discard: nat            // bytes of this request still to be dropped as they arrive
    var inRbuf: bool            // the request is still at the front of rbuf
    var bodyIn: nat
    var bodySent: nat
    var splice: Option<Splice>
    var venue: Option<string>   // the body bytes staged for the attempt in flight
    var streaming: bool
    var parked: bool
    var confirmPending: bool

    ghost var received: string  // every byte of the connection from this request's first
    ghost var cut: seq<CutOff>  // venues reset

    function Total(): nat { headerLen + bodyLen }

    /** The slots other uploads hold: the count, less this one's if its body is streaming. */
    ghost function Others(): int
      reads this`streaming, slots
    {
      slots.bodiesStreaming - if streaming then 1 else 0
    }

    /** The body bytes that have arrived. */
    ghost function Body(): (r: string)
      reads this`received
    {
      if |received| <= headerLen then "" else received[headerLen..Least(|received|, Total())]
    }

    /** The length the venue was told. */
    function Declared(): nat
      reads this`splice
    {
      bodyLen + if splice.Some? then splice.value.Grow() else 0
    }

    function DeadlineNow(): int
      reads this`bodyIn
    {
      Deadline(limits, start, bodyIn)
    }

    /** Whole in the buffer, or gone from it to its last byte as far as that arrived. */
    ghost predicate BufferOk()
      reads this`received, this`inRbuf, this`rbuf, this`discard, this`bodyIn, this`streaming, this`parked, this`venue, this`confirmPending
    {
      && headerLen <= |received|
      && (if inRbuf then rbuf == received && discard == 0 && bodyIn <= |Body()|
          else rbuf == received[Least(|received|, Total())..] && discard == Total() - Least(|received|, Total()))
      && !(streaming && parked) && (parked ==> headDecided && venue.None?) && (streaming || parked ==> inRbuf)
      && (confirmPending ==> headDecided)
    }

    /** The scan has read no more than arrived, and all of a body known whole. */
    ghost predicate ScanOk()
      reads this`received, scan
    {
      scanned ==> scan.Sound() && scan.cfg == cfg && scan.read <= Body() && (scan.ended <==> |scan.read| == bodyLen)
    }

    /** What went is within what is safe. */
    ghost predicate SentOk()
      reads this`received, this`bodySent, scan
    {
      && bodySent <= |Body()|
      && (scanned && scan.verdict != BodyScan.Refused ==> bodySent <= scan.SafeNow() && bodySent <= |scan.read|)
    }

    ghost predicate SpliceOk()
      reads this`splice
    {
      splice.Some? ==> scanned && Suits(cfg, splice.value)
    }

    /** What is staged is the image of the body's first `bodySent` bytes. */
    ghost predicate StageOk()
      reads this`received, this`bodySent, this`splice, this`venue, scan
    {
      && (venue.Some? ==>
            && (splice.Some? ==> scanned) && (scanned ==> scan.verdict != BodyScan.Refused)
            && bodySent <= |Body()|
            && if splice.None? then venue.value == Body()[..bodySent]
               else bodySent <= |scan.read|
                    && venue.value == Staged(cfg, splice.value, scan.read, bodySent, bodyLen)
                    && Clear(scan.core.marks, bodySent))
    }

    /** Venues given up were short of what they were told. */
    ghost predicate CutsOk()
      reads this`cut
    {
      forall c <- cut :: |c.bytes| < c.declared
    }

    /** More of the body is due, and the scan has not refused it. */
    ghost predicate DueOk()
      reads this, scan
    {
      && (streaming || parked ==> |received| < Total() && (scanned ==> scan.verdict != BodyScan.Refused))
      && (streaming || parked || confirmPending ==> bodySent < bodyLen)
      && (venue.Some? && inRbuf && scanned ==> scan.read == Body())
      && (venue.Some? && inRbuf && !streaming ==> Total() <= |received|)
    }

    ghost predicate Valid()
      reads this, scan
    {
      BufferOk() && ScanOk() && SentOk() && SpliceOk() && StageOk() && CutsOk() && DueOk()
    }

    // -------------------------------------------------------------- what every state says

    /** Short of the body's last byte, the venue is short of the length it was told, so it never
        runs the request. */
    lemma ShortOfDeclared()
      requires ScanOk() && StageOk() && venue.Some? && bodySent < bodyLen
      ensures |venue.value| < Declared()
    {
      hide Staged, Clear, Run;
      if splice.Some? {
        ScanTells(scan);
        StagedShort(cfg, splice.value, scan.read, bodySent, bodyLen);
      }
    }

    /** At the body's last byte it has exactly that length. */
    lemma FullAtLast()
      requires ScanOk() && SpliceOk() && StageOk() && venue.Some? && bodySent == bodyLen
      ensures |venue.value| == Declared()
    {
      hide Staged, Clear, Run, Suits, Verdict;
      if splice.Some? {
        ScanTells(scan);
        assert |Body()| <= bodyLen;
        assert scan.read <= Body() && |scan.read| == bodyLen && scan.ended;
        StagedFull(cfg, splice.value, scan.read);
      }
    }

    // -------------------------------------------------------------- a body starts

    /** Admitted before its last byte: to go as it arrives, or to park. */
    constructor (cfg: Config, headerLen: nat, bodyLen: nat, scanned: bool, headDecided: bool, limits: Limits, start: int,
                 first: string, forward: bool, slots: Slots.Slots)
      requires headerLen <= |first| < headerLen + bodyLen && (!forward ==> headDecided)
      modifies slots
      ensures Valid() && fresh(scan) && this.slots == slots && Others() == old(slots.bodiesStreaming)
      ensures this.cfg == cfg && this.scanned == scanned && this.headDecided == headDecided
      ensures this.headerLen == headerLen && this.bodyLen == bodyLen && received == first
      ensures streaming == forward && parked == !forward && venue.None? && bodySent == 0 && confirmPending == headDecided
    {
      hide Step;
      this.cfg, this.headerLen, this.bodyLen, this.scanned, this.headDecided := cfg, headerLen, bodyLen, scanned, headDecided;
      this.limits, this.start, this.slots := limits, start, slots;
      var s := new BodyScan.BodyScan(cfg);
      scan := s;
      rbuf, discard, inRbuf, received, cut := first, 0, true, first, [];
      bodyIn, bodySent, splice, venue := |first| - headerLen, 0, None, None;
      streaming, parked, confirmPending := forward, !forward, headDecided;
      if forward { slots.bodiesStreaming := slots.bodiesStreaming + 1; }
      new;
    }

    method BodySoFar() returns (body: string)
      requires inRbuf && BufferOk()
      ensures body == Body()
    {
      var end := Least(|rbuf|, Total());
      body := if end <= headerLen then "" else rbuf[headerLen..end];
    }

    // -------------------------------------------------------------- a body stops

    /** No more of it goes up: its slot is free, once however often this is asked. */
    method StopBody()
      requires Others() >= 0
      modifies this`streaming, slots
      ensures !streaming && Others() == old(Others())
    {
      if !streaming { return; }
      streaming := false;
      slots.bodiesStreaming := slots.bodiesStreaming - 1;
    }

    /** The venue holds a body short of its length: reset. */
    method CutBody()
      requires venue.Some? ==> |venue.value| < Declared()
      requires CutsOk() && Others() >= 0
      modifies this`streaming, this`venue, this`cut, slots
      ensures !streaming && venue.None? && CutsOk() && Others() == old(Others())
      ensures cut == old(cut) + if old(venue).Some? then [CutOff(old(venue).value, Declared())] else []
    {
      StopBody();
      if venue.Some? {
        cut := cut + [CutOff(venue.value, Declared())];
        venue := None;
      }
    }

    /** The buffered copy goes, and what is still to come is dropped as it arrives. */
    method EndBodyStream(response: bool)
      requires BufferOk() && inRbuf && (streaming ==> response) && Others() >= 0
      modifies this`streaming, this`parked, this`inRbuf, this`rbuf, this`discard, slots
      ensures BufferOk() && !inRbuf && !parked && !streaming && Others() == old(Others())
    {
      if streaming && response { StopBody(); }
      var held := Least(|rbuf|, Total());
      discard := discard + (Total() - held);
      rbuf := rbuf[held..];
      inRbuf, parked := false, false;
    }

    /** Where a body may be given up: its last byte has not gone. */
    ghost predicate Stoppable()
      reads this, scan
    {
      && BufferOk() && ScanOk() && SentOk() && SpliceOk() && CutsOk() && inRbuf && bodySent < bodyLen
      && (venue.Some? ==> |venue.value| < Declared())
    }

    /** A check failed after part of the body may have gone. */
    method RefuseBody()
      requires Stoppable() && Others() >= 0
      modifies this`streaming, this`venue, this`cut, this`parked, this`inRbuf, this`rbuf, this`discard, slots
      ensures Others() == old(Others())
      ensures Valid() && !inRbuf && !streaming && !parked && venue.None?
      ensures cut == old(cut) + if old(venue).Some? then [CutOff(old(venue).value, Declared())] else []
    {
      hide ScanOk, SentOk, SpliceOk;
      CutBody();
      EndBodyStream(false);
    }

    // -------------------------------------------------------------- staging

    /** The venue's bytes for the body's first `sent` bytes, as a first attempt or a resend stages them. */
    method ForwardParts(sp: Option<Splice>, sent: nat) returns (out: string)
      requires BufferOk() && ScanOk() && inRbuf && sent <= |Body()| && (sp.Some? ==> scanned)
      requires scanned ==> scan.verdict != BodyScan.Refused && scan.read == Body()
      requires sp.Some? ==> Clear(scan.core.marks, sent)
      ensures out == if sp.None? then Body()[..sent] else Staged(cfg, sp.value, scan.read, sent, bodyLen)
    {
      hide Clear, Sent, Run, At, Tidy;
      var body := BodySoFar();
      if sp.None? {
        out := body[..sent];
      } else {
        ScanTells(scan);
        TidyAt(cfg, body);
        out := Append("", sp.value, body, 0, sent, bodyLen, scan.core.marks);
      }
    }

    /** The next bytes known good, after what went. */
    method ForwardBody(safe: nat)
      requires BufferOk() && ScanOk() && SentOk() && StageOk() && inRbuf && bodySent < bodyLen
      requires scanned ==> scan.verdict != BodyScan.Refused && scan.read == Body()
      requires bodySent <= safe <= if scanned then scan.SafeNow() else |Body()|
      requires splice.Some? ==> Clear(scan.core.marks, safe)
      modifies this`venue, this`bodySent
      ensures BufferOk() && ScanOk() && SentOk() && StageOk()
      ensures bodySent == if venue.Some? then safe else old(bodySent)
      ensures venue.Some? == old(venue).Some?
    {
      hide Clear, Sent, Run, At, Tidy, Suits;
      if scanned { ScanTells(scan); }
      if venue.None? || safe <= bodySent { return; }
      var body := BodySoFar();
      if splice.Some? {
        TidyAt(cfg, body);
        StagedNext(cfg, splice.value, body, bodySent, safe, bodyLen);
        var out := Append(venue.value, splice.value, body, bodySent, safe, bodyLen, scan.core.marks);
        venue := Some(out);
      } else {
        assert body[..safe] == body[..bodySent] + body[bodySent..safe];
        venue := Some(venue.value + body[bodySent..safe]);
      }
      bodySent := safe;
    }

    /** Scans what arrived, if it is scanned: refused, or how much of it is known good. */
    method FeedScan(body: string) returns (ok: bool, safe: nat)
      requires scanned ==> scan.Sound() && !scan.ended && scan.verdict != BodyScan.Refused && scan.cfg == cfg && scan.read <= body
      modifies scan
      ensures !scanned ==> ok && safe == |body|
      ensures scanned ==> scan.Sound() && scan.cfg == cfg && scan.read == body && (scan.ended <==> |body| == bodyLen)
      ensures scanned ==> (ok <==> scan.verdict != BodyScan.Refused)
      ensures scanned && ok ==>
                && AliveOn(cfg, body) && scan.core.marks == MarksOf(cfg, body)
                && old(scan.SafeNow()) <= safe == scan.SafeNow() == SafeOf(cfg, body) <= |body|
                && Clear(scan.core.marks, safe) && (|body| == bodyLen ==> safe == |body|)
      ensures scanned && ok ==> AliveOn(cfg, old(scan.read)) && old(scan.core.marks) == MarksOf(cfg, old(scan.read))
      ensures scanned && ok ==> old(scan.SafeNow()) == SafeOf(cfg, old(scan.read))
    {
      hide Clear, Run, At, SafeAt, Verdict;
      ok, safe := true, |body|;
      if scanned {
        ghost var was := scan.read;
        ScanTells(scan);
        var v := scan.Feed(body, |body| == bodyLen);
        if v == BodyScan.Refused {
          ok := false;
          return;
        }
        ScanTells(scan);
        SafeLater(was, body);
        TidyAt(cfg, body);
        safe := scan.SafeNow();
      }
    }

    /** The first attempt, or another once a venue was lost: goes as far as it is known good. */
    method Dispatch(sp: Option<Splice>) returns (ok: bool)
      requires Valid() && streaming && venue.None? && (sp.Some? ==> scanned && Suits(cfg, sp.value)) && Others() >= 0
      modifies this, scan, slots
      ensures Others() == old(Others())
      ensures Valid() && received == old(received) && bodySent >= old(bodySent)
      ensures ok ==> venue.Some? && splice == sp && bodySent == if scanned then scan.SafeNow() else |Body()|
      ensures !ok ==> venue.None? && !streaming && !inRbuf && scanned && scan.verdict == BodyScan.Refused
      ensures scanned ==> scan.read == Body()
    {
      hide Clear, Run, At, Tidy, Suits, Staged, SafeAt, MarksOf;
      var body := BodySoFar();
      var safe;
      ok, safe := FeedScan(body);
      if !ok {
        RefuseBody();
        return;
      }
      StageFirst(sp, safe);
    }

    /** A new venue gets what is known good. */
    method StageFirst(sp: Option<Splice>, safe: nat)
      requires BufferOk() && ScanOk() && SentOk() && CutsOk() && DueOk() && streaming && venue.None?
      requires sp.Some? ==> scanned && Suits(cfg, sp.value) && Clear(scan.core.marks, safe)
      requires scanned ==> scan.verdict != BodyScan.Refused && scan.read == Body()
      requires safe == (if scanned then scan.SafeNow() else |Body()|) && bodySent <= safe <= |Body()|
      modifies this`splice, this`bodySent, this`venue
      ensures Valid() && venue.Some? && splice == sp && bodySent == safe
    {
      hide Clear, Suits, Staged, ScanOk;
      assert !parked && |Body()| < bodyLen;
      StageVenue(sp, Withheld(confirmPending, safe, bodyLen));
    }

    method StageVenue(sp: Option<Splice>, sent: nat)
      requires BufferOk() && ScanOk() && inRbuf && !parked && sent <= |Body()|
      requires sp.Some? ==> scanned && Suits(cfg, sp.value) && Clear(scan.core.marks, sent)
      requires scanned ==> scan.verdict != BodyScan.Refused && scan.read == Body()
      requires sent <= if scanned then scan.SafeNow() else |Body()|
      modifies this`splice, this`bodySent, this`venue
      ensures BufferOk() && SentOk() && SpliceOk() && StageOk() && venue.Some? && splice == sp && bodySent == sent
    {
      hide Clear, Suits, Staged, ScanOk;
      var out := ForwardParts(sp, sent);
      splice, bodySent, venue := sp, sent, Some(out);
    }

    lemma SafeLater(a: string, b: string)
      requires a <= b && AliveOn(cfg, b) && AliveOn(cfg, a)
      ensures SafeOf(cfg, a) <= SafeOf(cfg, b)
    {
      hide At, SafeAt;
      SafeGrows(cfg, b, |a|, |b|);
      assert b == a + b[|a|..];
      SafePrefix(cfg, a, b[|a|..]);
      assert b[..|b|] == b;
    }

    // -------------------------------------------------------------- bytes arrive

    /** Too slow, or to be sent again whole: the venue is reset and the body stays buffered. */
    method GiveUp()
      requires Stoppable() && Others() >= 0
      modifies this`streaming, this`venue, this`cut, this`parked, slots
      ensures Others() == old(Others())
      ensures Valid() && !streaming && !parked && venue.None?
      ensures cut == old(cut) + if old(venue).Some? then [CutOff(old(venue).value, Declared())] else []
    {
      hide ScanOk, SentOk, SpliceOk;
      CutBody();
      parked := false;
    }

    /** Everything that arrived is scanned and not refused, and more of it may go. */
    ghost predicate Scanned()
      reads this, scan
    {
      && BufferOk() && ScanOk() && SentOk() && SpliceOk() && StageOk() && CutsOk() && inRbuf && bodySent < bodyLen
      && (scanned ==> scan.verdict != BodyScan.Refused && scan.read == Body())
    }

    lemma ScannedStops()
      requires Scanned()
      ensures Stoppable()
    {
      hide ScanOk, SentOk, SpliceOk, StageOk, BufferOk;
      if venue.Some? { ShortOfDeclared(); }
    }

    lemma StopsDecided()
      requires Scanned()
      ensures headDecided || !(parked || confirmPending)
    {
      hide ScanOk, SentOk, SpliceOk, StageOk;
    }

    /** The last byte is in. True: it may go. A refusal drops the request; one to be sent again, or
        that was parked, stays buffered whole. */
    method EndUpload(modelBad: bool, confirm: Confirm) returns (go: bool)
      requires Scanned() && (streaming || parked) && Others() >= 0
      modifies this`streaming, this`parked, this`confirmPending, this`venue, this`cut, this`inRbuf, this`rbuf, this`discard, slots
      ensures Others() == old(Others())
      ensures !streaming && !parked
      ensures go ==> Scanned() && !confirmPending && venue == old(venue) && cut == old(cut)
      ensures !go ==> Valid() && venue.None?
      ensures !go ==> cut == old(cut) + if old(venue).Some? then [CutOff(old(venue).value, Declared())] else []
      ensures go <==> old(streaming) && (headDecided ==> !modelBad && confirm == Keep)
      ensures inRbuf <==> !(headDecided && (modelBad || confirm == Refuse))
      ensures inRbuf ==> rbuf == old(rbuf) && discard == old(discard)
    {
      hide ScanOk, SentOk, SpliceOk, StageOk, CutsOk;
      StopsDecided();
      StopBody();
      ScannedStops();
      if !headDecided { return true; }
      if modelBad {
        RefuseBody();
        return false;
      }
      confirmPending := false;
      if confirm == Refuse {
        RefuseBody();
        return false;
      }
      if confirm == Keep && !parked { return true; }
      GiveUp();
      return false;
    }

    /** What was staged is still right once more was scanned. */
    lemma Restage(was: string, marks: Marks, sp: Splice, sent: nat, staged: string)
      requires scanned && scan.Sound() && scan.cfg == cfg && scan.verdict != BodyScan.Refused && was <= scan.read
      requires AliveOn(cfg, was) && marks == MarksOf(cfg, was) && sent <= SafeOf(cfg, was) && sent <= |was|
      requires Clear(marks, sent) && sent < bodyLen && staged == Staged(cfg, sp, was, sent, bodyLen)
      ensures sent <= |scan.read| && staged == Staged(cfg, sp, scan.read, sent, bodyLen) && Clear(scan.core.marks, sent)
    {
      hide Clear, Run, At, SafeAt, Staged;
      ScanTells(scan);
      assert scan.read == was + scan.read[|was|..];
      StagedStays(cfg, sp, was, scan.read[|was|..], sent, bodyLen);
    }

    /** The state once bytes arrived, before they are scanned. */
    ghost predicate Arrived()
      reads this, scan
    {
      && Stoppable() && StageOk()
      && (scanned ==> !scan.ended && scan.verdict != BodyScan.Refused)
    }

    /** The client's bytes, into its buffer: what was scanned and staged stands. */
    method TakeBytes(bytes: string)
      requires ScanOk() && SentOk() && StageOk() && headerLen <= |received|
      modifies this`rbuf, this`received
      ensures ScanOk() && SentOk() && StageOk() && rbuf == old(rbuf) + bytes && received == old(received) + bytes
      ensures old(Body()) <= Body()
    {
      hide Clear, Suits, Staged, Run;
      ghost var before := Body();
      rbuf, received := rbuf + bytes, received + bytes;
      assert before <= Body() && Body()[..|before|] == before;
      if venue.Some? && splice.None? { assert before[..bodySent] == Body()[..bodySent]; }
    }

    method Receive(bytes: string)
      requires Valid() && (streaming || parked)
      modifies this`rbuf, this`received
      ensures Arrived() && received == old(received) + bytes && rbuf == old(rbuf) + bytes
    {
      hide Clear, Suits, Staged, Run, SpliceOk, CutsOk;
      if venue.Some? { ShortOfDeclared(); }
      TakeBytes(bytes);
    }

    method CountBody() returns (body: string)
      requires Arrived()
      modifies this`bodyIn
      ensures Arrived() && body == Body() && |body| <= bodyLen && (|body| < bodyLen <==> |received| < Total())
      ensures venue.Some? ==> !parked
      ensures DeadlineNow() >= old(DeadlineNow())
    {
      hide Clear, Suits, Staged, ScanOk, SentOk, StageOk, SpliceOk, CutsOk;
      body := BodySoFar();
      DeadlineGrows(limits, start, bodyIn, |body|);
      bodyIn := |body|;
    }

    /** Scans what arrived; what went stays as it went. */
    method Check(body: string) returns (ok: bool, safe: nat)
      requires Arrived() && body == Body()
      modifies scan
      ensures !ok ==> Stoppable() && scanned && scan.verdict == BodyScan.Refused
      ensures ok ==> Scanned() && bodySent <= safe == (if scanned then scan.SafeNow() else |body|) <= |body|
      ensures ok && splice.Some? ==> Clear(scan.core.marks, safe)
      ensures ok && scanned && |body| == bodyLen ==> safe == |body|
      ensures scanned ==> scan.read == body
    {
      hide Clear, Suits, Staged, Run, At, SafeAt, MarksOf, BufferOk, CutsOk;
      ghost var was, marks := scan.read, scan.core.marks;
      ok, safe := FeedScan(body);
      if ok && venue.Some? && splice.Some? { Restage(was, marks, splice.value, bodySent, venue.value); }
    }

    /** The request was refused, by its scan or at its last byte. */
    ghost predicate Dropped(modelBad: bool, confirm: Confirm)
      reads this`received, scan
    {
      || (scanned && scan.verdict == BodyScan.Refused)
      || (Total() <= |received| && headDecided && (modelBad || confirm == Refuse))
    }

    /** New body bytes: scanned first, then whatever is known good goes to the venue. */
    method PumpBody(bytes: string, now: int, modelBad: bool, confirm: Confirm)
      requires Valid() && (streaming || parked) && Others() >= 0
      modifies this, scan, slots
      ensures Valid() && received == old(received) + bytes && Others() == old(Others()) && (streaming ==> old(streaming))
      ensures bodySent >= old(bodySent) && DeadlineNow() >= old(DeadlineNow())
      ensures now > old(DeadlineNow()) ==> venue.None? && !streaming && !parked && bodySent == old(bodySent)
      ensures old(venue).Some? && venue.None? ==> cut == old(cut) + [CutOff(old(venue).value, old(Declared()))]
      ensures venue.Some? ==> old(venue).Some? && bodySent == if scanned then scan.SafeNow() else |Body()|
      ensures now <= old(DeadlineNow()) && scanned ==> scan.read == Body()
      ensures inRbuf <==> now > old(DeadlineNow()) || !Dropped(modelBad, confirm)
      ensures inRbuf ==> rbuf == old(rbuf) + bytes && discard == old(discard)
      ensures venue.Some? <==> (
                && old(venue).Some? && now <= old(DeadlineNow()) && !Dropped(modelBad, confirm)
                && (|received| < Total() || (old(streaming) && (headDecided ==> confirm == Keep))))
      ensures streaming == (old(streaming) && now <= old(DeadlineNow()) && |received| < Total() && !Dropped(modelBad, confirm))
      ensures parked == (old(parked) && now <= old(DeadlineNow()) && |received| < Total() && !Dropped(modelBad, confirm))
    {
      hide Clear, Suits, Staged, ScanOk, SentOk, StageOk, SpliceOk, CutsOk, Body, BufferOk;
      Receive(bytes);
      if now > DeadlineNow() {
        GiveUp();
        return;
      }
      var body := CountBody();
      var ok, safe := Check(body);
      if !ok {
        RefuseBody();
        return;
      }
      Advance(body, safe, modelBad, confirm);
    }

    /** What is known good goes, the last byte once it may. */
    method Advance(body: string, safe: nat, modelBad: bool, confirm: Confirm)
      requires Scanned() && (streaming || parked) && body == Body() && |body| <= bodyLen && Others() >= 0
      requires bodySent <= safe == (if scanned then scan.SafeNow() else |body|) <= |body|
      requires splice.Some? ==> Clear(scan.core.marks, safe)
      requires (|body| < bodyLen <==> |received| < Total()) && (venue.Some? ==> !parked)
      modifies this`streaming, this`parked, this`confirmPending, this`venue, this`cut, this`inRbuf, this`rbuf, this`discard, this`bodySent, slots
      ensures Valid() && bodySent >= old(bodySent) && Others() == old(Others()) && (streaming ==> old(streaming))
      ensures old(venue).Some? && venue.None? ==> cut == old(cut) + [CutOff(old(venue).value, Declared())]
      ensures venue.Some? ==> old(venue).Some? && bodySent == safe
      ensures venue.Some? <==> (
                && old(venue).Some?
                && (|body| < bodyLen || (old(streaming) && (headDecided ==> !modelBad && confirm == Keep))))
      ensures streaming == (old(streaming) && |body| < bodyLen) && parked == (old(parked) && |body| < bodyLen)
      ensures inRbuf <==> !(|body| == bodyLen && headDecided && (modelBad || confirm == Refuse))
      ensures inRbuf ==> rbuf == old(rbuf) && discard == old(discard)
    {
      hide Clear, Suits, Staged, ScanOk, SentOk, StageOk, SpliceOk, CutsOk, Body, BufferOk;
      var go := true;
      if |body| == bodyLen { go := EndUpload(modelBad, confirm); }
      if go { ForwardBody(Withheld(confirmPending, safe, bodyLen)); }
    }

    /** Bytes of a request that is over go as they arrive, and no byte after them. */
    method DropDiscard(bytes: string)
      requires Valid() && discard > 0
      modifies this`rbuf, this`received, this`discard, this`bodyIn
      ensures Valid() && received == old(received) + bytes && DeadlineNow() >= old(DeadlineNow())
    {
      hide Clear, Suits, Staged, Run, ScanOk, SentOk, StageOk, SpliceOk, CutsOk;
      TakeBytes(bytes);
      var n := Least(discard, |rbuf|);
      rbuf, discard := rbuf[n..], discard - n;
      DeadlineGrows(limits, start, bodyIn, bodyIn + n);
      bodyIn := bodyIn + n;
    }

    /** Bytes behind a request that waits only for its answer. */
    method Buffer(bytes: string)
      requires Valid() && discard == 0 && !streaming && !parked
      modifies this`rbuf, this`received
      ensures Valid() && received == old(received) + bytes && rbuf == old(rbuf) + bytes
    {
      hide Clear, Suits, Staged, Run, ScanOk, SentOk, StageOk, SpliceOk, CutsOk;
      TakeBytes(bytes);
    }

    /** Bytes from the client, in any state. However they are cut, once the request is over what
        is left in the buffer begins at the next request's first byte. */
    method ClientBytes(bytes: string, now: int, modelBad: bool, confirm: Confirm)
      requires Valid() && Others() >= 0
      modifies this, scan, slots
      ensures Valid() && received == old(received) + bytes && Others() == old(Others()) && (streaming ==> old(streaming))
      ensures bodySent >= old(bodySent) && DeadlineNow() >= old(DeadlineNow())
      ensures !inRbuf ==> rbuf == received[Least(|received|, Total())..] && discard == Total() - Least(|received|, Total())
      ensures inRbuf <==> old(inRbuf) && (old(streaming || parked) && now <= old(DeadlineNow()) ==> !Dropped(modelBad, confirm))
      ensures inRbuf ==> rbuf == old(rbuf) + bytes && discard == old(discard)
      ensures venue.Some? && bodySent < bodyLen ==> |venue.value| < Declared()
      ensures venue.Some? && bodySent == bodyLen ==> |venue.value| == Declared()
    {
      hide Clear, Suits, Staged, ScanOk, SentOk, StageOk, SpliceOk, CutsOk, Body;
      if discard > 0 {
        DropDiscard(bytes);
      } else if streaming || parked {
        PumpBody(bytes, now, modelBad, confirm);
      } else {
        Buffer(bytes);
      }
      if venue.Some? {
        if bodySent < bodyLen { ShortOfDeclared(); } else if bodySent == bodyLen { FullAtLast(); }
      }
    }

    // -------------------------------------------------------------- other steps

    /** A stale connection's one retry resends what went. */
    method Resend()
      requires Valid() && inRbuf && venue.Some?
      modifies this`venue
      ensures Valid() && venue == old(venue)
    {
      hide Clear, Run, Tidy, Suits, Staged;
      var out := ForwardParts(splice, bodySent);
      venue := Some(out);
    }

    /** The venue failed before it answered: reset if it holds part of a body it will not finish. */
    method LoseVenue()
      requires Valid()
      modifies this`venue, this`cut
      ensures Valid() && venue.None?
      ensures cut == old(cut) + if streaming && old(venue).Some? then [CutOff(old(venue).value, Declared())] else []
    {
      hide Clear, Run, Suits, Staged, ScanOk, SentOk, SpliceOk;
      if streaming && venue.Some? {
        ShortOfDeclared();
        cut := cut + [CutOff(venue.value, Declared())];
      }
      venue := None;
    }

    /** No venue takes it as it is: it waits unsent to its last byte. */
    method Park()
      requires Valid() && streaming && venue.None? && headDecided && Others() >= 0
      modifies this`streaming, this`parked, this`splice, slots
      ensures Valid() && parked && !streaming && splice.None? && Others() == old(Others())
    {
      hide Clear, Run, Suits, Staged;
      StopBody();
      parked, splice := true, None;
    }

    /** A response byte arrived: what went is all that goes. */
    method ResponseBegins()
      requires Valid() && inRbuf && Others() >= 0
      modifies this`streaming, this`parked, this`inRbuf, this`rbuf, this`discard, slots
      ensures Valid() && !streaming && !parked && !inRbuf && venue == old(venue) && Others() == old(Others())
    {
      hide Clear, Run, Suits, Staged;
      EndBodyStream(true);
    }

    /** The connection is gone: nothing more of the body goes, and a venue short of it is reset. */
    method Forget()
      requires Valid() && Others() >= 0
      modifies this`streaming, this`parked, this`venue, this`cut, slots
      ensures Valid() && !streaming && !parked && venue.None? && Others() == old(Others())
      ensures cut == old(cut) + if old(streaming) && old(venue).Some? then [CutOff(old(venue).value, Declared())] else []
    {
      hide Clear, Run, Suits, Staged, ScanOk, SentOk, SpliceOk;
      LoseVenue();
      StopBody();
      parked := false;
    }
  }
}
