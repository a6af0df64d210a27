/** How a translated stream ends: when it fails, when it is done, and with which finish reason, told
    by the events themselves.
 */
module TranslatorEnd {
  import opened Options
  import opened Translator
  import opened TranslatorOrder

  // ---------------------------------------------------------------- what the events say

  /** An error, a start with an id or model too long to echo, or a stop reason that names a failure. */
  predicate Fails(e: Event) {
    || e.ErrorEvent?
    || (e.MessageStart? && e.named.Some? && (|e.named.value.0| > 256 || |e.named.value.1| > 256))
    || (e.MessageDelta? && e.stop == Some(""))
  }

  /** A stop reason. */
  predicate States(e: Event) { e.MessageDelta? && e.stop.Some? && e.stop.value != "" }

  /** A call that can be passed on after `calls` others. */
  predicate OpensCall(e: Event, calls: nat) { e.ToolStart? && e.name != "" && 0 <= e.index < 256 && calls < 256 }

  /** How many calls the events open. */
  function Calls(es: seq<Event>): nat {
    if es == [] then 0
    else
      var before := Calls(es[..|es| - 1]);
      if OpensCall(es[|es| - 1], before) then before + 1 else before
  }

  /** A call was opened and no stop reason came since. */
  predicate CallOpen(es: seq<Event>) {
    es != [] &&
    var before, e := es[..|es| - 1], es[|es| - 1];
    if States(e) then false else OpensCall(e, Calls(before)) || CallOpen(before)
  }

  /** The k-th event ends the message; a foreign end mark cannot vouch for an open call. */
  predicate Stops(es: seq<Event>, k: nat)
    requires k < |es|
  {
    es[k].MessageStop? || (es[k].DoneMark? && !CallOpen(es[..k]))
  }

  /** Nothing before the k-th event ended the stream. */
  predicate Live(es: seq<Event>, k: nat)
    requires k <= |es|
  {
    forall j | 0 <= j < k :: !Fails(es[j]) && !Stops(es, j)
  }

  /** The k-th event is the first to state a reason or to end the message. */
  predicate Finishes(es: seq<Event>, k: nat) {
    && k < |es| && Live(es, k) && (States(es[k]) || Stops(es, k))
    && forall j | 0 <= j < k :: !States(es[j])
  }

  /** The reason it states; if none, that calls are to be made, or a plain stop. */
  function ReasonAt(es: seq<Event>, k: nat): string
    requires k < |es|
  {
    if States(es[k]) then es[k].stop.value else if Calls(es[..k]) > 0 then "tool_calls" else "stop"
  }

  predicate FailsAt(es: seq<Event>, k: nat) { k < |es| && Live(es, k) && Fails(es[k]) }

  predicate StopsAt(es: seq<Event>, k: nat) { k < |es| && Live(es, k) && Stops(es, k) }

  predicate StatesAt(es: seq<Event>, k: nat) { k < |es| && Live(es, k) && States(es[k]) }

  // ---------------------------------------------------------------- one event more

  lemma Earlier(es: seq<Event>, e: Event, k: nat)
    requires k <= |es|
    ensures (es + [e])[..k] == es[..k]
    ensures Live(es + [e], k) <==> Live(es, k)
    ensures k < |es| ==> (Stops(es + [e], k) <==> Stops(es, k)) && (es + [e])[k] == es[k] && ReasonAt(es + [e], k) == ReasonAt(es, k)
  {
    hide CallOpen, Calls, Fails, States;
    assert (es + [e])[..k] == es[..k];
    forall j | 0 <= j < |es| ensures (es + [e])[..j] == es[..j] && (es + [e])[j] == es[j] {}
  }

  /** Whether some event is of a kind, with one more. */
  lemma OneMore(es: seq<Event>, e: Event)
    ensures var t := es + [e];
            && (Live(t, |t|) <==> Live(es, |es|) && !Fails(e) && !Stops(t, |es|))
            && ((exists k: nat :: FailsAt(t, k)) <==> (exists k: nat :: FailsAt(es, k)) || (Live(es, |es|) && Fails(e)))
            && ((exists k: nat :: StopsAt(t, k)) <==> (exists k: nat :: StopsAt(es, k)) || (Live(es, |es|) && Stops(t, |es|)))
            && ((exists k: nat :: StatesAt(t, k)) <==> (exists k: nat :: StatesAt(es, k)) || (Live(es, |es|) && States(e)))
  {
    hide CallOpen, Calls, Fails, States, Live, Stops;
    var t := es + [e];
    forall k: nat | k <= |es| ensures Live(t, k) <==> Live(es, k) { Earlier(es, e, k); }
    forall k: nat | k < |es| ensures (Stops(t, k) <==> Stops(es, k)) && t[k] == es[k] { Earlier(es, e, k); }
    LiveMore(t);
    forall k: nat | k < |es| ensures (FailsAt(t, k) <==> FailsAt(es, k)) && (StopsAt(t, k) <==> StopsAt(es, k)) && (StatesAt(t, k) <==> StatesAt(es, k)) {}
    assert FailsAt(t, |es|) <==> Live(es, |es|) && Fails(e);
    assert StopsAt(t, |es|) <==> Live(es, |es|) && Stops(t, |es|);
    assert StatesAt(t, |es|) <==> Live(es, |es|) && States(e);
  }

  lemma LiveMore(t: seq<Event>)
    requires t != []
    ensures Live(t, |t|) <==> Live(t, |t| - 1) && !Fails(t[|t| - 1]) && !Stops(t, |t| - 1)
  {
    hide CallOpen, Calls, Fails, States, Stops;
  }

  /** While it lives, what was stated was stated by one of its events. */
  predicate Stated(es: seq<Event>) { exists j | 0 <= j < |es| :: States(es[j]) }

  lemma FinishMore(es: seq<Event>, e: Event)
    ensures var t := es + [e];
            && (forall k: nat | k < |es| :: Finishes(t, k) <==> Finishes(es, k))
            && (Finishes(t, |es|) <==> Live(es, |es|) && (States(e) || Stops(t, |es|)) && !Stated(es))
            && (Stated(t) <==> Stated(es) || States(e))
  {
    hide CallOpen, Calls, Fails, States, Live, Stops;
    var t := es + [e];
    forall k: nat | k <= |es| ensures Live(t, k) <==> Live(es, k) { Earlier(es, e, k); }
    forall k: nat | k < |es| ensures (Stops(t, k) <==> Stops(es, k)) && t[k] == es[k] { Earlier(es, e, k); }
    if States(e) { assert States(t[|es|]); }
    if Stated(es) {
      var j :| 0 <= j < |es| && States(es[j]);
      assert States(t[j]);
    }
  }

  // ---------------------------------------------------------------- the state and the events

  /** The finish chunk is that of the event that finishes. */
  ghost predicate FinishTold(es: seq<Event>, out: seq<Chunk>) {
    && (HasFinish(out) <==> exists k: nat :: Finishes(es, k))
    && (forall i, k: nat | 0 <= i < |out| && out[i].Finish? && Finishes(es, k) :: out[i].reason == ReasonAt(es, k))
  }

  ghost predicate Ends(es: seq<Event>, s: State) {
    && (s.failed <==> exists k: nat :: FailsAt(es, k))
    && (s.done <==> exists k: nat :: StopsAt(es, k))
    && (s.finish.Some? <==> exists k: nat :: StatesAt(es, k))
    && (!Ended(s) <==> Live(es, |es|))
    && (s.finish.Some? ==> s.finishSent) && !(s.failed && s.done)
    && (!Ended(s) ==> s.next == Calls(es) && (s.toolOpen <==> CallOpen(es)) && (s.finishSent <==> s.finish.Some?)
                      && (s.finish.Some? <==> Stated(es)))
  }

  lemma Counted(es: seq<Event>, e: Event)
    ensures var t := es + [e];
            && Calls(t) == (if OpensCall(e, Calls(es)) then Calls(es) + 1 else Calls(es))
            && (CallOpen(t) <==> if States(e) then false else OpensCall(e, Calls(es)) || CallOpen(es))
            && (Stops(t, |es|) <==> e.MessageStop? || (e.DoneMark? && !CallOpen(es)))
  {
    hide States;
    var t := es + [e];
    assert t[..|t| - 1] == es && t[..|es|] == es && t[|es|] == e;
  }

  lemma EndsMore(es: seq<Event>, s: State, e: Event)
    requires Ends(es, s)
    ensures Ends(es + [e], Next(s, e))
  {
    hide CallOpen, Calls, Live, Stops, FailsAt, StopsAt, StatesAt, Stated;
    Counted(es, e);
    OneMore(es, e);
    FinishMore(es, e);
  }

  /** An event says a finish chunk if it finishes, and then its own reason. */
  lemma SaysFinish(es: seq<Event>, s: State, e: Event)
    requires Ends(es, s)
    ensures var t, more := es + [e], Says(s, e);
            && (HasFinish(more) <==> Finishes(t, |es|))
            && (forall i | 0 <= i < |more| && more[i].Finish? :: more[i].reason == ReasonAt(t, |es|))
            && (Next(s, e).finishSent && !Ended(s) <==> (s.finishSent || HasFinish(more)) && !Ended(s))
  {
    hide CallOpen, Calls, Live, Stops, FailsAt, StopsAt, StatesAt, Stated, Finishes, Sanitized;
    Counted(es, e);
    FinishMore(es, e);
    assert (es + [e])[|es|] == e && (es + [e])[..|es|] == es;
    if !Ended(s) {
      if e.MessageStop? || e.DoneMark? { ClosingFinish(s); }
      if e.MessageDelta? && Says(s, e) != [] { assert Says(s, e)[0].Finish?; }
    }
  }

  lemma ClosingFinish(s: State)
    ensures HasFinish(Closing(s)) <==> !s.finishSent
    ensures forall i | 0 <= i < |Closing(s)| && Closing(s)[i].Finish? :: Closing(s)[i].reason == FinishNow(s)
  {
    hide FinishNow;
    if !s.finishSent { assert Closing(s)[0].Finish?; }
  }

  /** Nothing finishes twice. */
  lemma FinishOnce(es: seq<Event>, e: Event, k: nat)
    requires Finishes(es, k)
    ensures !Finishes(es + [e], |es|)
  {
    hide CallOpen, Calls, Stops, Live, Fails, States;
    FinishMore(es, e);
    if Live(es, |es|) { LiveAll(es, k); }
  }

  lemma LiveAll(es: seq<Event>, k: nat)
    requires Live(es, |es|) && k < |es|
    ensures !Stops(es, k)
  {}

  lemma HasSum(a: seq<Chunk>, b: seq<Chunk>)
    ensures HasFinish(a + b) <==> HasFinish(a) || HasFinish(b)
  {
    if HasFinish(a) {
      var k :| 0 <= k < |a| && a[k].Finish?;
      assert (a + b)[k].Finish?;
    }
    if HasFinish(b) {
      var k :| 0 <= k < |b| && b[k].Finish?;
      assert (a + b)[|a| + k].Finish?;
    }
  }

  lemma ToldMore(es: seq<Event>, s: State, out: seq<Chunk>, e: Event)
    requires Ends(es, s) && FinishTold(es, out)
    ensures FinishTold(es + [e], out + Says(s, e))
  {
    hide CallOpen, Calls, Live, Stops, Ends, Finishes, Says, ReasonAt;
    var t, more := es + [e], Says(s, e);
    var all := out + more;
    SaysFinish(es, s, e);
    FinishMore(es, e);
    HasSum(out, more);
    assert Finishes(t, |es|) ==> !HasFinish(out) by {
      if exists k: nat :: Finishes(es, k) {
        var k: nat :| Finishes(es, k);
        FinishOnce(es, e, k);
      }
    }
    forall k: nat | Finishes(es, k) ensures k < |es| && Finishes(t, k) && ReasonAt(t, k) == ReasonAt(es, k) {
      assert k < |es| by { Within(es, k); }
      Earlier(es, e, k);
    }
    forall k: nat | Finishes(t, k) ensures k == |es| || Finishes(es, k) { Within(t, k); }
    forall i, k: nat | 0 <= i < |all| && all[i].Finish? && Finishes(t, k) ensures all[i].reason == ReasonAt(t, k) {
      if i < |out| {
        assert out[i] == all[i];
        assert HasFinish(out);
      } else {
        assert more[i - |out|] == all[i];
        assert HasFinish(more);
        if k < |es| { FinishOnce(es, e, k); }
      }
    }
  }

  lemma Within(es: seq<Event>, k: nat)
    requires Finishes(es, k)
    ensures k < |es|
  {}

  // ---------------------------------------------------------------- whole runs

  lemma RunMore(s: State, es: seq<Event>, e: Event)
    ensures Run(s, es + [e]) == Next(Run(s, es), e) && Output(s, es + [e]) == Output(s, es) + Says(Run(s, es), e)
  {
    hide Next, Says;
    RunSum(s, es, [e]);
    assert [e][1..] == [];
    assert Says(Run(s, es), e) + [] == Says(Run(s, es), e);
  }

  lemma {:induction false} RunEnds(asked: bool, es: seq<Event>)
    ensures Ends(es, Run(Start(asked), es)) && FinishTold(es, Output(Start(asked), es))
    decreases |es|
  {
    hide Ends, FinishTold, Next, Says;
    if es == [] {
      Nothing(asked);
    } else {
      var before, e := es[..|es| - 1], es[|es| - 1];
      assert es == before + [e];
      RunEnds(asked, before);
      RunMore(Start(asked), before, e);
      EndsMore(before, Run(Start(asked), before), e);
      ToldMore(before, Run(Start(asked), before), Output(Start(asked), before), e);
    }
  }

  lemma Nothing(asked: bool)
    ensures Ends([], Start(asked)) && FinishTold([], [])
  {}

  /** For every run of events, before and after the upstream's EOF: it fails exactly if the first event
      to end it names a failure; it is done exactly if that event ends the message; a finish chunk goes
      exactly if some event states a reason or ends the message while it lives, and its reason is the
      one the first of these states, or the default if it states none. At EOF it ends well exactly if it
      is done, or a reason was stated and it has not failed. */
  lemma FinishIs(asked: bool, es: seq<Event>)
    ensures var s := Run(Start(asked), es); var out := Output(Start(asked), es) + AtEof(s);
            && (s.failed <==> exists k: nat :: FailsAt(es, k))
            && (s.done <==> exists k: nat :: StopsAt(es, k))
            && (EndsWell(s) <==> !(exists k: nat :: FailsAt(es, k)) &&
                                 ((exists k: nat :: StopsAt(es, k)) || (exists k: nat :: StatesAt(es, k))))
            && (HasFinish(out) <==> exists k: nat :: Finishes(es, k))
            && (forall i, k: nat | 0 <= i < |out| && out[i].Finish? && Finishes(es, k) :: out[i].reason == ReasonAt(es, k))
  {
    hide Run, Output, FailsAt, StopsAt, StatesAt, Finishes, ReasonAt, Live, Calls, CallOpen;
    var s, before := Run(Start(asked), es), Output(Start(asked), es);
    RunEnds(asked, es);
    var tail := AtEof(s);
    NoFinishLeft(s);
    HasSum(before, tail);
    var out := before + tail;
    assert forall j | 0 <= j < |tail| :: out[|before| + j] == tail[j];
    assert forall i | |before| <= i < |out| :: out[i] == tail[i - |before|];
    assert forall i | 0 <= i < |before| :: before[i] == out[i];
  }

  /** At EOF a reason that was stated has gone. */
  lemma NoFinishLeft(s: State)
    requires s.finish.Some? ==> s.finishSent
    ensures !HasFinish(AtEof(s))
  {}
}
