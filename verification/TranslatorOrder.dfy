/** In what order the translator's chunks can come, over every run of events and at its end. */
module TranslatorOrder {
  import opened Options
  import opened Translator

  // ---------------------------------------------------------------- well-ordered chunks

  predicate HasRole(out: seq<Chunk>) { exists k | 0 <= k < |out| :: out[k].Role? }

  predicate HasFinish(out: seq<Chunk>) { exists k | 0 <= k < |out| :: out[k].Finish? }

  predicate HasDone(out: seq<Chunk>) { exists k | 0 <= k < |out| :: out[k].Done? }

  predicate HasTool(out: seq<Chunk>) { exists k | 0 <= k < |out| :: out[k].ToolOpen? }

  /** A chunk of the reply itself. */
  predicate Speaks(c: Chunk) { c.Content? || c.ToolOpen? || c.ToolArgs? }

  predicate UsageLast(out: seq<Chunk>) { out != [] && out[|out| - 1].Usage? }

  /** What the chunk after `out` may be. */
  predicate MayFollow(asked: bool, out: seq<Chunk>, c: Chunk) {
    && (c.Role? ==> !HasRole(out))
    && (Speaks(c) ==> HasRole(out))
    && (c.Finish? ==> !HasFinish(out))
    && (c.Usage? ==> asked)
    && (c.Done? ==> HasFinish(out) && (UsageLast(out) <==> asked))
    && (UsageLast(out) ==> c.Done?)
    && !HasDone(out)
  }

  /** The role once and before the reply, one finish, one end with the finish before it and nothing
      after it, and the usage, if asked for, directly before the end. */
  predicate Ordered(asked: bool, out: seq<Chunk>) {
    forall k | 0 <= k < |out| :: MayFollow(asked, out[..k], out[k])
  }

  lemma OrderedMore(asked: bool, out: seq<Chunk>, c: Chunk)
    requires Ordered(asked, out) && MayFollow(asked, out, c)
    ensures Ordered(asked, out + [c])
  {
    hide MayFollow;
    var all := out + [c];
    forall k | 0 <= k < |all| ensures MayFollow(asked, all[..k], all[k]) {
      if k < |out| { assert all[..k] == out[..k]; } else { assert all[..k] == out; }
    }
  }

  lemma HasMore(out: seq<Chunk>, c: Chunk)
    ensures HasRole(out + [c]) <==> HasRole(out) || c.Role?
    ensures HasFinish(out + [c]) <==> HasFinish(out) || c.Finish?
    ensures HasDone(out + [c]) <==> HasDone(out) || c.Done?
    ensures HasTool(out + [c]) <==> HasTool(out) || c.ToolOpen?
    ensures UsageLast(out + [c]) <==> c.Usage?
  {
    var all := out + [c];
    assert all[|out|] == c && forall k | 0 <= k < |out| :: all[k] == out[k];
  }

  // ---------------------------------------------------------------- the state tells what went

  /** The default finish names the calls once one was opened. */
  function DefaultOf(out: seq<Chunk>): string { if HasTool(out) then "tool_calls" else "stop" }

  /** Every finish reason was stated, or is the default for what went before it. */
  predicate Reasons(past: set<Event>, out: seq<Chunk>) {
    forall k | 0 <= k < |out| ::
      out[k].Finish? ==> MessageDelta(Some(out[k].reason)) in past || out[k].reason == DefaultOf(out[..k])
  }

  predicate Flags(s: State, out: seq<Chunk>) {
    && (s.role <==> HasRole(out)) && (s.finishSent <==> HasFinish(out)) && (s.done <==> HasDone(out))
    && (s.next > 0 <==> HasTool(out)) && !UsageLast(out)
  }

  predicate Told(s: State, past: set<Event>, out: seq<Chunk>) {
    && Ordered(s.usageAsked, out) && Flags(s, out) && Reasons(past, out)
    && (s.finish.Some? ==> MessageDelta(s.finish) in past && s.finish != Some(""))
    && (s.done ==> MessageStop in past || DoneMark in past || s.finish.Some?)
  }

  lemma ReasonsMore(past: set<Event>, more: set<Event>, out: seq<Chunk>, c: Chunk)
    requires Reasons(past, out) && past <= more
    requires c.Finish? ==> MessageDelta(Some(c.reason)) in more || c.reason == DefaultOf(out)
    ensures Reasons(more, out + [c])
  {
    var all := out + [c];
    forall k | 0 <= k < |all| && all[k].Finish?
      ensures MessageDelta(Some(all[k].reason)) in more || all[k].reason == DefaultOf(all[..k])
    {
      if k < |out| { assert all[..k] == out[..k] && out[k] == all[k]; } else { assert all[..k] == out; }
    }
  }

  lemma ReasonsKept(past: set<Event>, more: set<Event>, out: seq<Chunk>)
    requires Reasons(past, out) && past <= more
    ensures Reasons(more, out)
  {
    hide DefaultOf;
  }

  /** One more chunk, of those that may follow. */
  lemma TellOne(asked: bool, past: set<Event>, more: set<Event>, out: seq<Chunk>, c: Chunk)
    requires Ordered(asked, out) && Reasons(past, out) && past <= more && MayFollow(asked, out, c)
    requires c.Finish? ==> MessageDelta(Some(c.reason)) in more || c.reason == DefaultOf(out)
    ensures Ordered(asked, out + [c]) && Reasons(more, out + [c])
    ensures HasRole(out + [c]) <==> HasRole(out) || c.Role?
    ensures HasFinish(out + [c]) <==> HasFinish(out) || c.Finish?
    ensures HasDone(out + [c]) <==> HasDone(out) || c.Done?
    ensures HasTool(out + [c]) <==> HasTool(out) || c.ToolOpen?
    ensures UsageLast(out + [c]) <==> c.Usage?
  {
    hide Ordered, MayFollow, Reasons, DefaultOf;
    OrderedMore(asked, out, c);
    ReasonsMore(past, more, out, c);
    HasMore(out, c);
  }

  // ---------------------------------------------------------------- one event

  /** The role, if it has not gone. */
  lemma TellRole(s: State, past: set<Event>, out: seq<Chunk>)
    requires Told(s, past, out) && !s.done
    ensures Told(s.(role := true), past, out + RoleFirst(s))
  {
    hide Ordered, Reasons, HasRole, HasFinish, HasDone, HasTool, UsageLast, DefaultOf;
    if s.role {
      assert out + [] == out;
    } else {
      TellOne(s.usageAsked, past, past, out, Role);
    }
  }

  /** A chunk of the reply, the role having gone. */
  lemma TellSpeech(s: State, past: set<Event>, out: seq<Chunk>, c: Chunk)
    requires Told(s, past, out) && !s.done && s.role && Speaks(c)
    ensures Told(s.(next := if c.ToolOpen? then s.next + 1 else s.next), past, out + [c])
  {
    hide Ordered, Reasons, HasRole, HasFinish, HasDone, HasTool, UsageLast, DefaultOf;
    TellOne(s.usageAsked, past, past, out, c);
  }

  /** The finish chunk, the usage and the end. */
  lemma TellClosing(s: State, past: set<Event>, out: seq<Chunk>)
    requires Told(s, past, out) && !s.done && (MessageStop in past || DoneMark in past || s.finish.Some?)
    ensures Told(Closed(s), past, out + Closing(s))
  {
    hide Ordered, Reasons, HasRole, HasFinish, HasDone, HasTool, UsageLast;
    var asked, f := s.usageAsked, Finish(FinishNow(s));
    var a := if s.finishSent then out else out + [f];
    if !s.finishSent { TellOne(asked, past, past, out, f); }
    var b := if asked then a + [Usage] else a;
    if asked { TellOne(asked, past, past, a, Usage); }
    TellOne(asked, past, past, b, Done);
    assert out + Closing(s) == b + [Done];
  }

  /** The finish chunk a stop reason makes. */
  lemma TellFinish(s: State, past: set<Event>, out: seq<Chunk>)
    requires Told(s, past, out) && !s.done && s.finish.Some? && !s.finishSent
    ensures Told(s.(finishSent := true), past, out + [Finish(s.finish.value)])
  {
    hide Ordered, Reasons, HasRole, HasFinish, HasDone, HasTool, UsageLast, DefaultOf;
    TellOne(s.usageAsked, past, past, out, Finish(s.finish.value));
  }

  lemma ToldMore(s: State, past: set<Event>, out: seq<Chunk>, e: Event)
    requires Told(s, past, out)
    ensures Told(s, past + {e}, out)
  {
    hide Ordered, Flags, Reasons;
    ReasonsKept(past, past + {e}, out);
  }

  /** Fields the chunks do not show. */
  lemma ToldSame(s: State, t: State, past: set<Event>, out: seq<Chunk>)
    requires Told(s, past, out)
    requires t == s.(failed := t.failed, toolOpen := t.toolOpen, ords := t.ords)
    ensures Told(t, past, out)
  {
    hide Ordered, Reasons;
  }

  lemma TellDelta(s: State, past: set<Event>, out: seq<Chunk>, e: Event)
    requires Told(s, past, out) && !Ended(s) && e.MessageDelta? && e in past
    ensures Told(Next(s, e), past, out + Says(s, e))
  {
    hide Ordered, Reasons, HasRole, HasFinish, HasDone, HasTool, UsageLast;
    assert out + [] == out;
    if e.stop == Some("") {
      ToldSame(s, Next(s, e), past, out);
    } else {
      var t := if e.stop.Some? then s.(finish := e.stop, toolOpen := false) else s;
      assert Told(t, past, out);
      if t.finish.Some? && !s.finishSent { TellFinish(t, past, out); }
    }
  }

  lemma TellTool(s: State, past: set<Event>, out: seq<Chunk>, e: Event)
    requires Told(s, past, out) && !Ended(s) && e.ToolStart? && Usable(s.next, e.index, e.name)
    ensures Told(Next(s, e), past, out + Says(s, e))
  {
    hide Ordered, Reasons, HasRole, HasFinish, HasDone, HasTool, UsageLast, Told, Sanitized;
    var c := ToolOpen(s.next, Sanitized(e.id), Sanitized(e.name));
    TellRole(s, past, out);
    var t := s.(role := true);
    TellSpeech(t, past, out + RoleFirst(s), c);
    ToldSame(t.(next := s.next + 1), Next(s, e), past, out + RoleFirst(s) + [c]);
    assert out + (RoleFirst(s) + [c]) == out + RoleFirst(s) + [c];
  }

  lemma TellText(s: State, past: set<Event>, out: seq<Chunk>, text: string)
    requires Told(s, past, out) && !Ended(s)
    ensures Told(Next(s, TextDelta(text)), past, out + Says(s, TextDelta(text)))
  {
    hide Told, Sanitized;
    var c := Content(Sanitized(text));
    TellRole(s, past, out);
    TellSpeech(s.(role := true), past, out + RoleFirst(s), c);
    assert out + (RoleFirst(s) + [c]) == out + RoleFirst(s) + [c];
  }

  lemma TellArgs(s: State, past: set<Event>, out: seq<Chunk>, e: Event)
    requires Told(s, past, out) && !Ended(s) && e.ArgsDelta? && (s.ords != map[] ==> s.role)
    ensures Told(Next(s, e), past, out + Says(s, e))
  {
    hide Told, Sanitized;
    assert out + [] == out;
    if e.index >= 0 && e.index in s.ords && e.json != "" {
      TellSpeech(s, past, out, ToolArgs(s.ords[e.index], Sanitized(e.json)));
    }
  }

  lemma TellEnd(s: State, past: set<Event>, out: seq<Chunk>, e: Event)
    requires Told(s, past, out) && !Ended(s) && (e.MessageStop? || e.DoneMark?) && e in past
    ensures Told(Next(s, e), past, out + Says(s, e))
  {
    hide Told, Closing, FinishNow;
    assert out + [] == out;
    if e.MessageStop? || !s.toolOpen {
      TellClosing(s, past, out);
      ToldSame(Closed(s), Next(s, e), past, out + Closing(s));
    }
  }

  lemma TellStart(s: State, past: set<Event>, out: seq<Chunk>, e: Event)
    requires Told(s, past, out) && !Ended(s) && e.MessageStart?
    ensures Told(Next(s, e), past, out + Says(s, e))
  {
    hide Told;
    assert out + [] == out;
    if Next(s, e).failed { ToldSame(s, Next(s, e), past, out); } else { TellRole(s, past, out); }
  }

  /** Every event keeps the order. */
  lemma TellNext(s: State, past: set<Event>, out: seq<Chunk>, e: Event)
    requires Told(s, past, out) && (s.ords != map[] ==> s.role)
    ensures Told(Next(s, e), past + {e}, out + Says(s, e)) && (Next(s, e).ords != map[] ==> Next(s, e).role)
  {
    hide Told, Closing, Sanitized, RoleFirst;
    var more := past + {e};
    ToldMore(s, past, out, e);
    assert out + [] == out;
    if Ended(s) { return; }
    if e.MessageDelta? { TellDelta(s, more, out, e); }
    else if e.ToolStart? { if Usable(s.next, e.index, e.name) { TellTool(s, more, out, e); } }
    else if e.TextDelta? { TellText(s, more, out, e.text); }
    else if e.ArgsDelta? { TellArgs(s, more, out, e); }
    else if e.MessageStop? || e.DoneMark? { TellEnd(s, more, out, e); }
    else if e.MessageStart? { TellStart(s, more, out, e); }
    else { ToldSame(s, Next(s, e), more, out); }
  }

  // ---------------------------------------------------------------- whole runs

  function EventSet(es: seq<Event>): set<Event> { set e | e in es }

  lemma {:induction false} TellRun(s: State, past: set<Event>, out: seq<Chunk>, es: seq<Event>)
    requires Told(s, past, out) && (s.ords != map[] ==> s.role)
    ensures Told(Run(s, es), past + EventSet(es), out + Output(s, es))
    decreases |es|
  {
    hide Told, Next, Says;
    if es == [] {
      assert past + EventSet(es) == past && out + [] == out;
    } else {
      TellNext(s, past, out, es[0]);
      TellRun(Next(s, es[0]), past + {es[0]}, out + Says(s, es[0]), es[1..]);
      assert past + {es[0]} + EventSet(es[1..]) == past + EventSet(es);
      assert out + (Says(s, es[0]) + Output(Next(s, es[0]), es[1..])) == out + Says(s, es[0]) + Output(Next(s, es[0]), es[1..]);
    }
  }

  lemma ToldAtStart(asked: bool)
    ensures Told(Start(asked), {}, [])
  {}

  lemma RunTold(asked: bool, es: seq<Event>)
    ensures Told(Run(Start(asked), es), EventSet(es), Output(Start(asked), es))
  {
    hide Told, Run, Output;
    ToldAtStart(asked);
    TellRun(Start(asked), {}, [], es);
    assert {} + EventSet(es) == EventSet(es) && [] + Output(Start(asked), es) == Output(Start(asked), es);
  }

  /** Chunks so far and at EOF: ordered; with every finish reason stated or the default; and no end
      unless an event stated one or a stop reason. */
  lemma RunOrdered(asked: bool, es: seq<Event>)
    ensures var s := Run(Start(asked), es); var out := Output(Start(asked), es) + AtEof(s);
            && Ordered(asked, out) && Reasons(EventSet(es), out) && !UsageLast(out)
            && (HasDone(out) ==> MessageStop in es || DoneMark in es ||
                                 exists r: string :: r != "" && MessageDelta(Some(r)) in es)
            && (EndsWell(s) ==> HasDone(out)) && (!EndsWell(s) && !s.failed ==> !HasDone(out))
  {
    hide Run, Output, Closing, Ordered, Reasons, HasDone, HasRole, HasFinish, HasTool, UsageLast;
    var s, before := Run(Start(asked), es), Output(Start(asked), es);
    RunTold(asked, es);
    AskedStays(Start(asked), es);
    assert before + [] == before;
    if EndsWell(s) && !s.done { TellClosing(s, EventSet(es), before); }
    if s.finish.Some? { assert MessageDelta(Some(s.finish.value)) in es; }
  }

  lemma {:induction false} AskedStays(s: State, es: seq<Event>)
    ensures Run(s, es).usageAsked == s.usageAsked
    decreases |es|
  {
    if es != [] { AskedStays(Next(s, es[0]), es[1..]); }
  }

  /** Once failed or done, nothing more is said. */
  lemma {:induction false} EndIsFinal(s: State, a: seq<Event>, b: seq<Event>)
    requires Ended(Run(s, a))
    ensures Run(s, a + b) == Run(s, a) && Output(s, a + b) == Output(s, a)
    decreases |a|
  {
    hide Next, Says;
    if a == [] {
      assert a + b == b;
      OutputEnded(s, b);
    } else {
      assert (a + b)[0] == a[0] && (a + b)[1..] == a[1..] + b;
      EndIsFinal(Next(s, a[0]), a[1..], b);
    }
  }
}
