/** The uploads of one engine, and the count of those streaming that they share
    (gateway/src/core/body.cpp). Whatever happens to any of them, in any order, the count is the
    number of uploads whose body is streaming, so a slot is given back exactly once.
 */
module Engine {
  import opened Options
  import opened Automaton
  import opened Splicing
  import opened SpliceStream
  import opened Deadlines
  import opened Upload
  import Slots

  class Engine {
    const slots: Slots.Slots
    var uploads: set<Upload>

    ghost function Streaming(): set<Upload>
      reads this, uploads
    {
      set u | u in uploads && u.streaming
    }

    /** Every upload is in order, holds its slot here and scans for itself. */
    ghost predicate UploadsOk()
      reads this, uploads, set u | u in uploads :: u.scan
    {
      && (forall u <- uploads :: u.slots == slots && u.Valid())
      && (forall u, v | u in uploads && v in uploads && u != v :: u.scan != v.scan)
    }

    ghost predicate Counted()
      reads this, slots, uploads
    {
      slots.bodiesStreaming == |Streaming()| && (slots.max > 0 ==> slots.bodiesStreaming <= slots.max)
    }

    ghost predicate Valid()
      reads this, slots, uploads, set u | u in uploads :: u.scan
    {
      UploadsOk() && Counted()
    }

    constructor (max: nat)
      ensures Valid() && uploads == {} && fresh(slots) && slots.max == max
    {
      slots := new Slots.Slots(max);
      uploads := {};
    }

    // -------------------------------------------------------------- one and the others

    ghost function StreamingBut(u: Upload): set<Upload>
      reads this, uploads - {u}
    {
      set v | v in uploads - {u} && v.streaming
    }

    ghost predicate OkBut(u: Upload)
      reads this, uploads - {u}, set v | v in uploads - {u} :: v.scan
    {
      && (forall v <- uploads - {u} :: v.slots == slots && v.scan != u.scan && v.Valid())
      && (forall v, w | v in uploads - {u} && w in uploads - {u} && v != w :: v.scan != w.scan)
    }

    lemma Apart(u: Upload)
      requires Valid() && u in uploads
      ensures OkBut(u) && u.Valid() && u.slots == slots && u.Others() == |StreamingBut(u)| >= 0
      ensures slots.max > 0 ==> slots.bodiesStreaming <= slots.max
      ensures Streaming() == StreamingBut(u) + if u.streaming then {u} else {}
    {
      hide Upload.Valid;
      assert Streaming() == StreamingBut(u) + if u.streaming then {u} else {};
    }

    /** In order again, if the others are and the count is right of them. */
    lemma Together(u: Upload)
      requires u in uploads && OkBut(u) && u.Valid() && u.slots == slots && u.Others() == |StreamingBut(u)|
      requires slots.max > 0 ==> slots.bodiesStreaming <= slots.max
      ensures Valid() && Streaming() == StreamingBut(u) + if u.streaming then {u} else {}
    {
      hide Upload.Valid;
      assert Streaming() == StreamingBut(u) + if u.streaming then {u} else {};
    }

    // -------------------------------------------------------------- what can happen

    /** A body that has not all arrived is let in: to go as it arrives if there is room, or to park. */
    method Admit(cfg: Config, headerLen: nat, bodyLen: nat, scanned: bool, headDecided: bool, limits: Limits, start: int,
                 first: string, forward: bool) returns (u: Upload)
      requires Valid() && headerLen <= |first| < headerLen + bodyLen
      requires if forward then slots.Admits() else headDecided
      modifies this, slots
      ensures Valid() && fresh(u) && uploads == old(uploads) + {u} && u.streaming == forward
      ensures Streaming() == old(Streaming()) + if forward then {u} else {}
    {
      hide Upload.Valid;
      ghost var before := Streaming();
      u := new Upload(cfg, headerLen, bodyLen, scanned, headDecided, limits, start, first, forward, slots);
      uploads := uploads + {u};
      assert before == StreamingBut(u);
      Together(u);
    }

    /** Bytes arrive from a client, in whatever state its upload is. */
    method ClientBytes(u: Upload, bytes: string, now: int, modelBad: bool, confirm: Confirm)
      requires Valid() && u in uploads
      modifies u, u.scan, slots
      ensures Valid() && StreamingBut(u) == old(StreamingBut(u)) && Streaming() <= old(Streaming())
    {
      hide Upload.Valid, Valid, Streaming;
      Apart(u);
      u.ClientBytes(bytes, now, modelBad, confirm);
      Together(u);
    }

    /** A venue is tried for it. */
    method Dispatch(u: Upload, sp: Option<Splice>) returns (ok: bool)
      requires Valid() && u in uploads && u.streaming && u.venue.None? && (sp.Some? ==> u.scanned && Suits(u.cfg, sp.value))
      modifies u, u.scan, slots
      ensures Valid() && StreamingBut(u) == old(StreamingBut(u)) && (ok ==> u.venue.Some?) && (!ok ==> !u.streaming)
    {
      hide Upload.Valid, Valid, Streaming, Suits;
      Apart(u);
      ok := u.Dispatch(sp);
      Together(u);
    }

    /** No venue takes it as it is. */
    method Park(u: Upload)
      requires Valid() && u in uploads && u.streaming && u.venue.None? && u.headDecided
      modifies u, slots
      ensures Valid() && StreamingBut(u) == old(StreamingBut(u)) && u.parked && !u.streaming
    {
      hide Upload.Valid, Valid, Streaming;
      Apart(u);
      u.Park();
      Together(u);
    }

    /** Its venue fails before it answers. */
    method LoseVenue(u: Upload)
      requires Valid() && u in uploads
      modifies u
      ensures Valid() && Streaming() == old(Streaming()) && u.venue.None?
    {
      hide Upload.Valid, Valid, Streaming;
      Apart(u);
      u.LoseVenue();
      Together(u);
    }

    /** Its venue's connection was stale, and a new one gets what went. */
    method Resend(u: Upload)
      requires Valid() && u in uploads && u.inRbuf && u.venue.Some?
      modifies u
      ensures Valid() && Streaming() == old(Streaming()) && u.venue == old(u.venue)
    {
      hide Upload.Valid, Valid, Streaming;
      Apart(u);
      u.Resend();
      Together(u);
    }

    /** Its venue starts to answer. */
    method ResponseBegins(u: Upload)
      requires Valid() && u in uploads && u.inRbuf
      modifies u, slots
      ensures Valid() && Streaming() == old(StreamingBut(u)) && !u.inRbuf
    {
      hide Upload.Valid, Valid, Streaming;
      Apart(u);
      u.ResponseBegins();
      Together(u);
    }

    /** Its client is gone, whatever it was doing: the slot is free, if it held one. */
    method Forget(u: Upload)
      requires Valid() && u in uploads
      modifies this, u, slots
      ensures Valid() && uploads == old(uploads) - {u} && Streaming() == old(StreamingBut(u))
    {
      Leave(u);
      hide Upload.Valid;
      ghost var before := StreamingBut(u);
      uploads := uploads - {u};
      assert Streaming() == before;
    }

    method Leave(u: Upload)
      requires Valid() && u in uploads
      modifies u, slots
      ensures Valid() && Streaming() == StreamingBut(u) == old(StreamingBut(u))
    {
      hide Upload.Valid, Valid, Streaming;
      Apart(u);
      u.Forget();
      Together(u);
    }
  }
}
