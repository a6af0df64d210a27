/** Re-resolving venues off the loop (gateway/src/resolve.cpp): the loop and the resolver thread
    share a queue, a done-list and a flag under one lock. A run is any interleaving of their steps,
    the lock's holder advancing alone.
 */
module Resolver {
  import opened Options
  import opened Modulo
  import opened Numbers
  import opened Parts

  const MIN_NS: int := 1_000_000_000
  const MAX_NS: int := 30_000_000_000

  // ---------------------------------------------------------------- the state

  datatype Holder = Free | ByLoop | ByResolver

  /** A lookup's answer; no addresses: it failed. */
  datatype Answer = Answer(slot: nat, ips: seq<string>)

  /** `Swapped`: holds the lock, `done` taken, the flag not yet cleared. */
  datatype LoopAt = LoopIdle | Swapped | Applying

  /** `Pushed`: holds the lock, the answer in `done`, the flag not yet set. */
  datatype ResolverAt = Waiting | Looking(slot: nat) | Pushed

  /** One venue, as the loop sees it. `asked`, `failed` and `failures` are history: when a lookup
      was last queued, when the last failure was noted, and how many came in a row. */
  datatype Venue = Venue(inflight: bool, nextNs: int, backoffNs: int,
                         asked: Option<int>, failed: int, failures: nat)

  datatype System = System(
    lock: Holder,
    pending: seq<nat>,
    done: seq<Answer>,
    ready: bool,
    loop: LoopAt,
    batch: seq<Answer>,
    resolver: ResolverAt,
    venues: seq<Venue>,
    now: int)

  function Start(n: nat): System {
    System(Free, [], [], false, LoopIdle, [], Waiting, seq(n, _ => Venue(false, 0, 0, None, 0, 0)), 0)
  }

  // ---------------------------------------------------------------- back-off

  function BackOff(was: int): int { if was == 0 then MIN_NS else if 2 * was < MAX_NS then 2 * was else MAX_NS }

  function NoteFailure(v: Venue, now: int): Venue {
    v.(backoffNs := BackOff(v.backoffNs), nextNs := now + BackOff(v.backoffNs), failed := now, failures := v.failures + 1)
  }

  /** An answer applied at `now`. */
  function Apply(v: Venue, answer: Answer, now: int): Venue {
    var w := v.(inflight := false);
    if answer.ips == [] then NoteFailure(w, now) else w.(backoffNs := 0, nextNs := now + MIN_NS, failures := 0)
  }

  // ---------------------------------------------------------------- steps

  datatype Step =
    | Request(slot: nat, queued: bool)       // the loop asks; `queued` false: no thread or no memory
    | Swap                                   // the loop, seeing the flag, takes `done` for its empty batch
    | ClearReady                             // and gives the lock back
    | ApplyNext                              // one answer of the batch
    | ApplyEnd
    | TakeJob                                // the resolver takes the first name
    | Push(ips: seq<string>)                 // its lookup ended
    | SetReady
    | Tick(ns: nat)

  predicate Enabled(s: System, st: Step) {
    match st
    case Request(slot, _) =>
      s.loop.LoopIdle? && s.lock.Free? && slot < |s.venues| && !s.venues[slot].inflight && s.venues[slot].nextNs <= s.now
    case Swap => s.loop.LoopIdle? && s.lock.Free? && s.ready
    case ClearReady => s.loop.Swapped? && s.lock.ByLoop?
    case ApplyNext => s.loop.Applying? && s.batch != [] && s.batch[0].slot < |s.venues|
    case ApplyEnd => s.loop.Applying? && s.batch == []
    case TakeJob => s.resolver.Waiting? && s.lock.Free? && s.pending != []
    case Push(_) => s.resolver.Looking? && s.lock.Free?
    case SetReady => s.resolver.Pushed? && s.lock.ByResolver?
    case Tick(_) => true
  }

  function Do(s: System, st: Step): System
    requires Enabled(s, st)
  {
    match st
    case Request(slot, queued) =>
      var v := s.venues[slot];
      if queued then s.(pending := s.pending + [slot], venues := s.venues[slot := v.(inflight := true, asked := Some(s.now))])
      else s.(venues := s.venues[slot := NoteFailure(v, s.now)])
    case Swap => s.(batch := s.done, done := s.batch, lock := ByLoop, loop := Swapped)
    case ClearReady => s.(ready := false, lock := Free, loop := Applying)
    case ApplyNext =>
      var a := s.batch[0];
      s.(venues := s.venues[a.slot := Apply(s.venues[a.slot], a, s.now)], batch := s.batch[1..])
    case ApplyEnd => s.(loop := LoopIdle)
    case TakeJob => s.(resolver := Looking(s.pending[0]), pending := s.pending[1..])
    case Push(ips) => s.(done := s.done + [Answer(s.resolver.slot, ips)], lock := ByResolver, resolver := Pushed)
    case SetReady => s.(ready := true, lock := Free, resolver := Waiting)
    case Tick(ns) => s.(now := s.now + ns)
  }

  // ---------------------------------------------------------------- what every step keeps

  function Slots(answers: seq<Answer>): (r: seq<nat>)
    ensures |r| == |answers|
  {
    seq(|answers|, i requires 0 <= i < |answers| => answers[i].slot)
  }

  /** Every lookup outstanding, wherever it is. */
  function Outstanding(s: System): multiset<nat> {
    multiset(s.pending) + (if s.resolver.Looking? then multiset{s.resolver.slot} else multiset{}) +
    multiset(Slots(s.done)) + multiset(Slots(s.batch))
  }

  /** One lookup for each venue marked, none for any other. */
  ghost predicate Counted(s: System) {
    forall slot: nat :: Outstanding(s)[slot] == if slot < |s.venues| && s.venues[slot].inflight then 1 else 0
  }

  predicate Locked(s: System) {
    && (s.lock.ByLoop? <==> s.loop.Swapped?) && (s.lock.ByResolver? <==> s.resolver.Pushed?)
    && (s.lock.Free? ==> (s.ready <==> s.done != []))
    && (s.loop.Swapped? ==> s.done == [])
    && (s.resolver.Pushed? ==> s.done != [])
    && (s.loop.LoopIdle? ==> s.batch == [])
  }

  /** How long the k-th failure in a row waits: 1, 2, 4, 8, 16, then 30 seconds. */
  function Wait(k: nat): int { if k == 0 then 0 else Least(Power(2, k - 1), 30) * MIN_NS }

  predicate Timed(v: Venue, now: int) {
    && v.backoffNs == Wait(v.failures)
    && (v.failures > 0 ==> v.failed <= now && v.nextNs == v.failed + Wait(v.failures))
    && (v.asked.Some? ==> v.asked.value <= now)
    && (v.asked.Some? && !v.inflight ==> v.nextNs >= v.asked.value + MIN_NS)
  }

  ghost predicate Inv(s: System) {
    Counted(s) && Locked(s) && forall i | 0 <= i < |s.venues| :: Timed(s.venues[i], s.now)
  }

  // ---------------------------------------------------------------- back-off keeps its schedule

  lemma WaitNext(k: nat)
    ensures BackOff(Wait(k)) == Wait(k + 1) >= MIN_NS
  {
    PowerPositive(2, k);
    if k > 0 { PowerPositive(2, k - 1); }
  }

  lemma FailureTimed(v: Venue, now: int)
    requires Timed(v, now)
    ensures Timed(NoteFailure(v, now), now)
  {
    hide Wait, BackOff;
    WaitNext(v.failures);
  }

  lemma ApplyTimed(v: Venue, a: Answer, now: int)
    requires Timed(v, now)
    ensures Timed(Apply(v, a, now), now) && !Apply(v, a, now).inflight
  {
    hide Wait, BackOff;
    WaitNext(v.failures);
    assert Wait(0) == 0 by { WaitNone(); }
  }

  lemma WaitNone()
    ensures Wait(0) == 0
  {}

  // ---------------------------------------------------------------- every step

  lemma SlotsParts(a: seq<Answer>, x: Answer)
    ensures Slots(a + [x]) == Slots(a) + [x.slot]
    ensures a != [] ==> Slots(a) == [a[0].slot] + Slots(a[1..])
  {}

  lemma SlotsCount(a: seq<Answer>, x: Answer)
    ensures multiset(Slots(a + [x])) == multiset(Slots(a)) + multiset{x.slot}
    ensures a != [] ==> multiset(Slots(a)) == multiset{a[0].slot} + multiset(Slots(a[1..]))
  {
    hide Slots;
    SlotsParts(a, x);
  }

  lemma PendingCount(p: seq<nat>, x: nat)
    ensures multiset(p + [x]) == multiset(p) + multiset{x}
    ensures p != [] ==> multiset(p) == multiset{p[0]} + multiset(p[1..])
  {
    if p != [] { assert p == [p[0]] + p[1..]; }
  }

  /** Lookups moved, none begun or ended. */
  lemma CountMoved(s: System, t: System)
    requires Counted(s) && Outstanding(t) == Outstanding(s) && |t.venues| == |s.venues|
    requires forall i | 0 <= i < |s.venues| :: t.venues[i].inflight == s.venues[i].inflight
    ensures Counted(t)
  {
    hide Outstanding;
  }

  /** One lookup begun. */
  lemma CountBegun(s: System, t: System, slot: nat)
    requires Counted(s) && Outstanding(t) == Outstanding(s) + multiset{slot}
    requires slot < |s.venues| == |t.venues| && !s.venues[slot].inflight && t.venues[slot].inflight
    requires forall i | 0 <= i < |s.venues| && i != slot :: t.venues[i] == s.venues[i]
    ensures Counted(t)
  {
    hide Outstanding;
  }

  /** One lookup ended. */
  lemma CountEnded(s: System, t: System, slot: nat)
    requires Counted(s) && Outstanding(s) == Outstanding(t) + multiset{slot}
    requires slot < |s.venues| == |t.venues| && !t.venues[slot].inflight
    requires forall i | 0 <= i < |s.venues| && i != slot :: t.venues[i] == s.venues[i]
    ensures Counted(t)
  {
    hide Outstanding;
    assert Outstanding(s)[slot] <= 1;
  }

  lemma RequestCount(s: System, slot: nat)
    requires Enabled(s, Request(slot, true))
    ensures Outstanding(Do(s, Request(slot, true))) == Outstanding(s) + multiset{slot}
  {
    hide Slots;
    PendingCount(s.pending, slot);
    MovePart(multiset(s.pending), multiset{slot}, if s.resolver.Looking? then multiset{s.resolver.slot} else multiset{},
             multiset(Slots(s.done)), multiset(Slots(s.batch)));
  }

  lemma SameLookups(s: System, t: System)
    requires t == s.(venues := t.venues)
    ensures Outstanding(t) == Outstanding(s)
  {
    hide Slots;
  }

  lemma MovePart(p: multiset<nat>, x: multiset<nat>, r: multiset<nat>, d: multiset<nat>, b: multiset<nat>)
    ensures (p + x) + r + d + b == p + r + d + b + x
  {}

  lemma CountRequest(s: System, st: Step)
    requires st.Request? && Enabled(s, st) && Counted(s)
    ensures Counted(Do(s, st))
  {
    hide NoteFailure, Counted, Outstanding;
    var t := Do(s, st);
    if st.queued {
      RequestCount(s, st.slot);
      CountBegun(s, t, st.slot);
    } else {
      FailureKeeps(s.venues[st.slot], s.now);
      SameLookups(s, t);
      CountMoved(s, t);
    }
  }

  lemma CountApply(s: System)
    requires Enabled(s, ApplyNext) && Counted(s)
    ensures Counted(Do(s, ApplyNext))
  {
    hide Slots, Apply, Counted;
    var t, a := Do(s, ApplyNext), s.batch[0];
    SlotsCount(s.batch, a);
    assert Outstanding(s) == Outstanding(t) + multiset{a.slot};
    ApplyClears(s.venues[a.slot], a, s.now);
    CountEnded(s, t, a.slot);
  }

  lemma CountResolver(s: System, st: Step)
    requires (st.TakeJob? || st.Push?) && Enabled(s, st) && Counted(s)
    ensures Counted(Do(s, st))
  {
    hide Slots, Counted;
    var t := Do(s, st);
    if st.TakeJob? {
      PendingCount(s.pending, 0);
    } else {
      SlotsCount(s.done, Answer(s.resolver.slot, st.ips));
    }
    assert Outstanding(t) == Outstanding(s);
    CountMoved(s, t);
  }

  lemma CountKeeps(s: System, st: Step)
    requires Enabled(s, st) && Counted(s)
    ensures Counted(Do(s, st))
  {
    hide Slots, Counted, NoteFailure, Apply;
    if st.Request? { CountRequest(s, st); }
    else if st.ApplyNext? { CountApply(s); }
    else if st.TakeJob? || st.Push? { CountResolver(s, st); }
    else {
      assert Outstanding(Do(s, st)) == Outstanding(s);
      CountMoved(s, Do(s, st));
    }
  }

  lemma FailureKeeps(v: Venue, now: int)
    ensures NoteFailure(v, now).inflight == v.inflight && NoteFailure(v, now).asked == v.asked
  {}

  lemma ApplyClears(v: Venue, a: Answer, now: int)
    ensures !Apply(v, a, now).inflight
  {}

  lemma LockKeeps(s: System, st: Step)
    requires Enabled(s, st) && Locked(s)
    ensures Locked(Do(s, st))
  {
    hide NoteFailure, Apply;
  }

  lemma TimeKeeps(s: System, st: Step)
    requires Enabled(s, st) && forall i | 0 <= i < |s.venues| :: Timed(s.venues[i], s.now)
    ensures var t := Do(s, st); |t.venues| == |s.venues| && forall i | 0 <= i < |t.venues| :: Timed(t.venues[i], t.now)
  {
    hide Wait, NoteFailure, Apply;
    if st.Request? && !st.queued { FailureTimed(s.venues[st.slot], s.now); }
    if st.ApplyNext? { ApplyTimed(s.venues[s.batch[0].slot], s.batch[0], s.now); }
  }

  lemma StepKeeps(s: System, st: Step)
    requires Enabled(s, st) && Inv(s)
    ensures Inv(Do(s, st))
  {
    hide Counted, Locked, Timed, Do;
    CountKeeps(s, st);
    LockKeeps(s, st);
    TimeKeeps(s, st);
  }

  // ---------------------------------------------------------------- runs

  ghost predicate Reaches(s: System, steps: seq<Step>, t: System)
    decreases |steps|
  {
    if steps == [] then s == t else Enabled(s, steps[0]) && Reaches(Do(s, steps[0]), steps[1..], t)
  }

  lemma {:induction false} RunKeeps(s: System, steps: seq<Step>, t: System)
    requires Inv(s) && Reaches(s, steps, t)
    ensures Inv(t) && |t.venues| == |s.venues|
    decreases |steps|
  {
    hide Inv, Do;
    if steps != [] {
      StepKeeps(s, steps[0]);
      SameVenues(s, steps[0]);
      RunKeeps(Do(s, steps[0]), steps[1..], t);
    }
  }

  lemma SameVenues(s: System, st: Step)
    requires Enabled(s, st)
    ensures |Do(s, st).venues| == |s.venues|
  {}

  lemma StartInv(n: nat)
    ensures Inv(Start(n))
  {
    var s := Start(n);
    assert Slots([]) == [];
    assert Outstanding(s) == multiset{};
    assert Wait(0) == 0;
  }

  /** A sequence with no element twice, all below `n`, has at most `n` elements. */
  lemma {:induction false} FewDistinct(slots: seq<nat>, n: nat)
    requires forall x <- slots :: x < n && multiset(slots)[x] == 1
    ensures |slots| <= n
    decreases n
  {
    var last: nat := if n == 0 then 0 else n - 1;
    if last in slots {
      var k :| 0 <= k < |slots| && slots[k] == last;
      var rest := slots[..k] + slots[k + 1..];
      Without(slots, k);
      FewDistinct(rest, n - 1);
    } else if n > 0 {
      FewDistinct(slots, n - 1);
    }
  }

  lemma Without(slots: seq<nat>, k: nat)
    requires k < |slots| && forall x <- slots :: multiset(slots)[x] == 1
    ensures var rest := slots[..k] + slots[k + 1..];
            forall x <- rest :: x in slots && x != slots[k] && multiset(rest)[x] == 1
  {
    var rest := slots[..k] + slots[k + 1..];
    assert slots == slots[..k] + [slots[k]] + slots[k + 1..];
    assert multiset(slots) == multiset(rest) + multiset{slots[k]};
    forall x <- rest ensures x in slots && x != slots[k] && multiset(rest)[x] == 1 {
      assert x in multiset(rest);
      assert multiset(slots)[x] == multiset(rest)[x] + multiset{slots[k]}[x];
    }
  }

  lemma AtMostOne(part: seq<nat>, all: multiset<nat>, n: nat)
    requires multiset(part) <= all && forall x: nat :: all[x] <= if x < n then 1 else 0
    ensures |part| <= n
  {
    forall x <- part ensures x < n && multiset(part)[x] == 1 { assert x in multiset(part); }
    FewDistinct(part, n);
  }

  /** In every reachable state: each venue has at most one lookup, wherever it is; `done` fits the
      capacity reserved for every venue; and with the lock free the flag says whether `done` holds
      anything. */
  lemma EveryInterleaving(n: nat, steps: seq<Step>, s: System)
    requires Reaches(Start(n), steps, s)
    ensures forall slot: nat :: Outstanding(s)[slot] <= 1
    ensures |s.done| <= n && |s.pending| <= n && |s.batch| <= n
    ensures s.lock.Free? ==> (s.ready <==> s.done != [])
  {
    hide Slots;
    StartInv(n);
    RunKeeps(Start(n), steps, s);
    assert |s.venues| == n;
    AtMostOne(Slots(s.done), Outstanding(s), n);
    AtMostOne(Slots(s.batch), Outstanding(s), n);
    AtMostOne(s.pending, Outstanding(s), n);
  }

  /** A push never grows `done` past its capacity: an answer's venue has no other in it. */
  lemma PushFits(n: nat, steps: seq<Step>, s: System, ips: seq<string>)
    requires Reaches(Start(n), steps, s) && Enabled(s, Push(ips))
    ensures |s.done| < n
  {
    hide Slots, Outstanding;
    var t := Do(s, Push(ips));
    ReachesMore(Start(n), steps, s, Push(ips));
    EveryInterleaving(n, steps + [Push(ips)], t);
  }

  lemma {:induction false} ReachesMore(s: System, steps: seq<Step>, t: System, st: Step)
    requires Reaches(s, steps, t) && Enabled(t, st)
    ensures Reaches(s, steps + [st], Do(t, st))
    decreases |steps|
  {
    hide Do, Enabled;
    if steps == [] {
      assert steps + [st] == [st];
      assert [st][1..] == [];
    } else {
      assert (steps + [st])[1..] == steps[1..] + [st];
      ReachesMore(Do(s, steps[0]), steps[1..], t, st);
    }
  }

  /** Lookups of one venue are queued at least a second apart, and after k failures in a row not
      before the k-th one's wait is over. */
  lemma LookupsApart(n: nat, steps: seq<Step>, s: System, slot: nat)
    requires Reaches(Start(n), steps, s) && Enabled(s, Request(slot, true))
    ensures var v := s.venues[slot];
            && (v.asked.Some? ==> s.now >= v.asked.value + MIN_NS)
            && (v.failures > 0 ==> s.now >= v.failed + Least(Power(2, v.failures - 1), 30) * MIN_NS)
  {
    hide Counted, Locked;
    StartInv(n);
    RunKeeps(Start(n), steps, s);
    assert Timed(s.venues[slot], s.now);
  }

  // ---------------------------------------------------------------- the next address

  /** Where an address stands in the list; the top if it is not there. */
  function Place(ips: seq<string>, ip: string): nat {
    var i := IndexOf(ips, ip);
    if i < |ips| then i else 0
  }

  /** The address dialled after a connect failed at `ip`. */
  function NextAddress(ips: seq<string>, ip: string): string {
    if |ips| <= 1 then ip else ips[(Place(ips, ip) + 1) % |ips|]
  }

  function AfterFailures(ips: seq<string>, ip: string, k: nat): string {
    if k == 0 then ip else NextAddress(ips, AfterFailures(ips, ip, k - 1))
  }

  predicate DistinctAddresses(ips: seq<string>) { forall i, j | 0 <= i < j < |ips| :: ips[i] != ips[j] }

  lemma IndexIs(ips: seq<string>, i: nat)
    requires DistinctAddresses(ips) && i < |ips|
    ensures Place(ips, ips[i]) == i
  {
    hide IndexOf;
    assert ips[IndexOf(ips, ips[i])] == ips[i];
  }

  /** The resolver drops duplicates, so failures in a row walk the whole list, round and round. */
  lemma {:induction false} FailuresRotate(ips: seq<string>, i: nat, k: nat)
    requires DistinctAddresses(ips) && i < |ips|
    ensures AfterFailures(ips, ips[i], k) == ips[(i + k) % |ips|]
    decreases k
  {
    hide IndexOf, Place;
    if k == 0 {
      ModUnique(i, |ips|, 0, i);
    } else {
      FailuresRotate(ips, i, k - 1);
      NextIs(ips, i + k - 1);
    }
  }

  lemma NextIs(ips: seq<string>, x: nat)
    requires DistinctAddresses(ips) && ips != []
    ensures NextAddress(ips, ips[x % |ips|]) == ips[(x + 1) % |ips|]
  {
    hide IndexOf, Place;
    IndexIs(ips, x % |ips|);
    ModAdd(x, 1, |ips|);
  }

  // ---------------------------------------------------------------- whole runs of dialling

  /** A connect failed at the address dialled, or a lookup came back; with nothing if it failed. */
  datatype DialEvent = ConnectFailed | Answered(ips: seq<string>)

  /** A venue's addresses, none before the first answer, and the one dialled. */
  datatype Dialler = Dialler(ips: seq<string>, ip: string)

  /** A fresh answer keeps the address in use if it is still there, else starts from the top. */
  function Dial(d: Dialler, e: DialEvent): Dialler {
    match e
    case ConnectFailed => d.(ip := NextAddress(d.ips, d.ip))
    case Answered(ips) =>
      if ips == [] then d else Dialler(ips, if d.ip in ips then d.ip else ips[0])
  }

  function DialRun(d: Dialler, es: seq<DialEvent>): Dialler {
    if es == [] then d else Dial(DialRun(d, es[..|es| - 1]), es[|es| - 1])
  }

  /** The last list a lookup found, and how many connects failed since. */
  function LastList(ips: seq<string>, es: seq<DialEvent>): seq<string> {
    if es == [] then ips
    else
      match es[|es| - 1]
      case ConnectFailed => LastList(ips, es[..|es| - 1])
      case Answered(answer) => if answer == [] then LastList(ips, es[..|es| - 1]) else answer
  }

  function FailedSince(es: seq<DialEvent>): nat {
    if es == [] then 0
    else
      match es[|es| - 1]
      case ConnectFailed => FailedSince(es[..|es| - 1]) + 1
      case Answered(answer) => if answer == [] then FailedSince(es[..|es| - 1]) else 0
  }

  /** The address dialled when the last list came. */
  function DialledThen(d: Dialler, es: seq<DialEvent>): string {
    if es == [] then d.ip
    else
      match es[|es| - 1]
      case ConnectFailed => DialledThen(d, es[..|es| - 1])
      case Answered(answer) => if answer == [] then DialledThen(d, es[..|es| - 1]) else DialRun(d, es[..|es| - 1]).ip
  }

  predicate DistinctAnswers(es: seq<DialEvent>) { forall e <- es :: e.Answered? ==> DistinctAddresses(e.ips) }

  /** Over every run of failed connects and answers, the list is the last one found, and the address
      dialled is on it: as many places on, round and round, as connects failed since, from where the
      address in use then stands on it, or from the top if it is gone. */
  lemma {:induction false} DialledIs(d: Dialler, es: seq<DialEvent>)
    requires DistinctAddresses(d.ips) && DistinctAnswers(es) && (d.ips != [] ==> d.ip in d.ips)
    ensures var t, ips := DialRun(d, es), LastList(d.ips, es);
            && t.ips == ips && DistinctAddresses(ips) && (ips == [] ==> t.ip == d.ip)
            && (ips != [] ==> t.ip in ips && t.ip == ips[(Place(ips, DialledThen(d, es)) + FailedSince(es)) % |ips|])
    decreases |es|
  {
    hide IndexOf, NextAddress, DistinctAddresses;
    if es == [] {
      if d.ips != [] { InUse(d.ips, d.ip); }
    } else {
      var before, e := es[..|es| - 1], es[|es| - 1];
      assert e in es;
      DialledIs(d, before);
      var ips := LastList(d.ips, before);
      if e == ConnectFailed {
        if ips == [] { NoOther(DialRun(d, before).ip); } else { NextIs(ips, Place(ips, DialledThen(d, before)) + FailedSince(before)); }
      } else if e.ips != [] {
        Kept(e.ips, DialRun(d, before).ip);
      }
    }
  }

  lemma NoOther(ip: string)
    ensures NextAddress([], ip) == ip
  {}

  lemma InUse(ips: seq<string>, ip: string)
    requires ip in ips
    ensures ips[Place(ips, ip) % |ips|] == ip
  {
    ModUnique(Place(ips, ip), |ips|, 0, Place(ips, ip));
  }

  lemma Kept(ips: seq<string>, ip: string)
    requires ips != []
    ensures (if ip in ips then ip else ips[0]) == ips[Place(ips, ip) % |ips|]
  {
    ModUnique(Place(ips, ip), |ips|, 0, Place(ips, ip));
  }

  /** In an outage every address listed is dialled, after fewer failures than there are addresses. */
  lemma EachDialled(ips: seq<string>, ip: string, wanted: string)
    requires DistinctAddresses(ips) && ip in ips && wanted in ips
    ensures exists k: nat :: k < |ips| && AfterFailures(ips, ip, k) == wanted
  {
    hide AfterFailures;
    var i: nat :| i < |ips| && ips[i] == ip;
    var j: nat :| j < |ips| && ips[j] == wanted;
    var k := if i <= j then j - i else j - i + |ips|;
    FailuresRotate(ips, i, k);
    if i <= j { ModUnique(i + k, |ips|, 0, j); } else { ModUnique(i + k, |ips|, 1, j); }
    assert AfterFailures(ips, ip, k) == wanted;
  }

  // ---------------------------------------------------------------- every answer is applied as it was found

  /** The answer a step finds, and the one it applies. */
  function FoundBy(s: System, st: Step): seq<Answer>
    requires Enabled(s, st)
  {
    if st.Push? then [Answer(s.resolver.slot, st.ips)] else []
  }

  function AppliedBy(s: System, st: Step): seq<Answer>
    requires Enabled(s, st)
  {
    if st.ApplyNext? then [s.batch[0]] else []
  }

  /** Over a run. */
  function Found(s: System, steps: seq<Step>): seq<Answer>
    decreases |steps|
  {
    if steps == [] || !Enabled(s, steps[0]) then [] else FoundBy(s, steps[0]) + Found(Do(s, steps[0]), steps[1..])
  }

  function Applied(s: System, steps: seq<Step>): seq<Answer>
    decreases |steps|
  {
    if steps == [] || !Enabled(s, steps[0]) then [] else AppliedBy(s, steps[0]) + Applied(Do(s, steps[0]), steps[1..])
  }

  lemma StepConserves(s: System, st: Step)
    requires Enabled(s, st) && (s.loop.LoopIdle? ==> s.batch == [])
    ensures var t := Do(s, st); s.batch + s.done + FoundBy(s, st) == AppliedBy(s, st) + (t.batch + t.done)
  {
    hide Apply, NoteFailure;
    if st.ApplyNext? { assert s.batch == [s.batch[0]] + s.batch[1..]; }
  }

  lemma Chained(a: seq<Answer>, b: seq<Answer>, c: seq<Answer>, d: seq<Answer>, e: seq<Answer>, f: seq<Answer>, g: seq<Answer>)
    requires a + b == c + d && d + e == f + g
    ensures a + (b + e) == (c + f) + g
  {
    assert a + (b + e) == (a + b) + e == c + (d + e) == c + f + g;
  }

  lemma {:induction false} RunConserves(s: System, steps: seq<Step>, t: System)
    requires Inv(s) && Reaches(s, steps, t)
    ensures s.batch + s.done + Found(s, steps) == Applied(s, steps) + (t.batch + t.done)
    decreases |steps|
  {
    hide Do, Enabled, Inv, FoundBy, AppliedBy;
    if steps == [] {
      assert s.batch + s.done + [] == [] + (s.batch + s.done);
    } else {
      var u, st := Do(s, steps[0]), steps[0];
      IdleEmpty(s);
      StepKeeps(s, st);
      StepConserves(s, st);
      RunConserves(u, steps[1..], t);
      Chained(s.batch + s.done, FoundBy(s, st), AppliedBy(s, st), u.batch + u.done, Found(u, steps[1..]), Applied(u, steps[1..]), t.batch + t.done);
    }
  }

  lemma IdleEmpty(s: System)
    requires Inv(s)
    ensures s.loop.LoopIdle? ==> s.batch == []
  {}

  /** Over every interleaving, the answers found are those applied, in the order found and with every
      address found, and those still to be applied: none is lost, repeated or changed. */
  lemma AnswersKept(n: nat, steps: seq<Step>, s: System)
    requires Reaches(Start(n), steps, s)
    ensures Found(Start(n), steps) == Applied(Start(n), steps) + s.batch + s.done
  {
    hide Inv;
    StartInv(n);
    RunConserves(Start(n), steps, s);
    assert Start(n).batch + Start(n).done + Found(Start(n), steps) == Found(Start(n), steps);
    assert Applied(Start(n), steps) + (s.batch + s.done) == Applied(Start(n), steps) + s.batch + s.done;
  }
}
