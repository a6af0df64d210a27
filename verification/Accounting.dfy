/** What a reply with a fallback owes for the attempts declined before it (provider/src/openai.cpp):
    `usage.iterations` read entry by entry, attempts without output held for their category, and
    each judged once. Counts are unbounded; -1 is one not stated.
 */
module Accounting {

  const MAX_HELD: nat := 4
  const MAX_TRIGGERS: nat := 8

  datatype Kind = Compaction | Message | Fallback | OtherKind

  datatype Entry = Entry(kind: Kind, uncached: int, out: int, read: int, write: int)

  /** The categories the fallback blocks named, in order: whether each is billed. */
  datatype Triggers = Triggers(n: nat, billed: seq<bool>) {
    predicate Ok() { |billed| == MAX_TRIGGERS && n < 256 }

    predicate Names(k: nat) { k < n && k < MAX_TRIGGERS }
  }

  // ---------------------------------------------------------------- what each attempt comes to

  datatype Fate = Billed | Unverified | Free

  /** The attempts a fallback followed: the `message` entries, in order. */
  function Declined(es: seq<Entry>): seq<Entry> {
    if es == [] then []
    else Declined(es[..|es| - 1]) + if es[|es| - 1].kind.Message? then [es[|es| - 1]] else []
  }

  predicate Silent(e: Entry) { e.out <= 0 }

  /** How many of the first `k` attempts were held for their category. */
  function HeldCount(ds: seq<Entry>, k: nat): (n: nat)
    requires k <= |ds|
    ensures n <= k && n <= MAX_HELD
    decreases k, 0
  {
    if k == 0 then 0 else HeldCount(ds, k - 1) + if IsHeld(ds, k - 1) then 1 else 0
  }

  /** Without output, among the first four of those, at an index a byte holds. */
  predicate IsHeld(ds: seq<Entry>, k: nat)
    requires k < |ds|
    decreases k, 1
  {
    Silent(ds[k]) && HeldCount(ds, k) < MAX_HELD && k < 256
  }

  /** One that produced output is billed; one that did not, only in a billed category, and one no
      category is known for is left out. */
  function FateOf(ds: seq<Entry>, t: Triggers, k: nat): Fate
    requires k < |ds| && t.Ok()
  {
    if !Silent(ds[k]) then Billed
    else if !IsHeld(ds, k) || !t.Names(k) then Unverified
    else if t.billed[k] then Billed else Free
  }

  function Max0(v: int): nat { if v > 0 then v else 0 }

  /** An attempt's whole prompt: the uncached part and the cache's. */
  function PromptOf(e: Entry): nat { Max0(e.uncached) + Max0(e.read) + Max0(e.write) }

  function Count(ds: seq<Entry>, t: Triggers, k: nat, fate: Fate): nat
    requires k <= |ds| && t.Ok()
  {
    if k == 0 then 0 else Count(ds, t, k - 1, fate) + if FateOf(ds, t, k - 1) == fate then 1 else 0
  }

  datatype Tokens = Tokens(prompt: nat, cached: nat, written: nat, out: nat)

  function Plus(a: Tokens, b: Tokens): Tokens {
    Tokens(a.prompt + b.prompt, a.cached + b.cached, a.written + b.written, a.out + b.out)
  }

  const NOTHING := Tokens(0, 0, 0, 0)

  function TokensOf(e: Entry): Tokens { Tokens(PromptOf(e), Max0(e.read), Max0(e.write), Max0(e.out)) }

  /** The tokens of the billed attempts among the first `k`. */
  function BilledTokens(ds: seq<Entry>, t: Triggers, k: nat): Tokens
    requires k <= |ds| && t.Ok()
  {
    if k == 0 then NOTHING
    else Plus(BilledTokens(ds, t, k - 1), if FateOf(ds, t, k - 1).Billed? then TokensOf(ds[k - 1]) else NOTHING)
  }

  /** Every attempt has one fate. */
  lemma {:induction false} FatesAdd(ds: seq<Entry>, t: Triggers, k: nat)
    requires k <= |ds| && t.Ok()
    ensures Count(ds, t, k, Billed) + Count(ds, t, k, Unverified) + Count(ds, t, k, Free) == k
    decreases k
  {
    hide FateOf;
    if k > 0 { FatesAdd(ds, t, k - 1); }
  }

  // ---------------------------------------------------------------- more attempts change no earlier one

  lemma {:induction false} HeldPrefix(ds: seq<Entry>, e: Entry, k: nat)
    requires k <= |ds|
    ensures HeldCount(ds + [e], k) == HeldCount(ds, k)
    ensures k < |ds| ==> (IsHeld(ds + [e], k) <==> IsHeld(ds, k))
    decreases k
  {
    if k > 0 { HeldPrefix(ds, e, k - 1); }
  }

  // ---------------------------------------------------------------- reading the entries

  /** An attempt held: the `index`-th, and its prompt. */
  datatype Held = Held(tokens: Tokens, index: nat)

  /** The held attempts among the first `k`. */
  function HeldList(ds: seq<Entry>, k: nat): (r: seq<Held>)
    requires k <= |ds|
    ensures |r| == HeldCount(ds, k)
  {
    if k == 0 then []
    else HeldList(ds, k - 1) + if IsHeld(ds, k - 1) then [Held(TokensOf(ds[k - 1]), k - 1)] else []
  }

  lemma {:induction false} HeldListPrefix(ds: seq<Entry>, e: Entry, k: nat)
    requires k <= |ds|
    ensures HeldList(ds + [e], k) == HeldList(ds, k)
    decreases k
  {
    if k > 0 {
      HeldListPrefix(ds, e, k - 1);
      HeldPrefix(ds, e, k - 1);
    }
  }

  /** The tokens of the attempts with output among the first `k`, and how many there are. */
  function Spoken(ds: seq<Entry>, k: nat): Tokens
    requires k <= |ds|
  {
    if k == 0 then NOTHING else Plus(Spoken(ds, k - 1), if Silent(ds[k - 1]) then NOTHING else TokensOf(ds[k - 1]))
  }

  function SpokenCount(ds: seq<Entry>, k: nat): nat
    requires k <= |ds|
  {
    if k == 0 then 0 else SpokenCount(ds, k - 1) + if Silent(ds[k - 1]) then 0 else 1
  }

  /** Attempts without output that were not held. */
  function OverCount(ds: seq<Entry>, k: nat): nat
    requires k <= |ds|
  {
    if k == 0 then 0 else OverCount(ds, k - 1) + if Silent(ds[k - 1]) && !IsHeld(ds, k - 1) then 1 else 0
  }

  lemma {:induction false} SumsPrefix(ds: seq<Entry>, e: Entry, k: nat)
    requires k <= |ds|
    ensures Spoken(ds + [e], k) == Spoken(ds, k) && SpokenCount(ds + [e], k) == SpokenCount(ds, k)
    ensures OverCount(ds + [e], k) == OverCount(ds, k)
    decreases k
  {
    if k > 0 {
      SumsPrefix(ds, e, k - 1);
      HeldPrefix(ds, e, k - 1);
    }
  }

  /** One of the source's running sums: -1 until something is stated. */
  class Attempts {
    var uncached: int
    var out: int
    var read: int
    var write: int
    var n: nat

    constructor ()
      ensures Sums(NOTHING) && n == 0
    {
      uncached, out, read, write, n := -1, -1, -1, -1, 0;
    }

    /** The sums stand for these tokens. */
    ghost predicate Sums(t: Tokens)
      reads this
    {
      && Max0(read) == t.cached && Max0(write) == t.written && Max0(out) == t.out
      && Max0(uncached) + Max0(read) + Max0(write) == t.prompt
    }

    method Add(e: Entry, ghost t: Tokens)
      requires Sums(t)
      modifies this
      ensures Sums(Plus(t, TokensOf(e))) && n == old(n) + 1
    {
      if e.uncached >= 0 { uncached := Max0(uncached) + e.uncached; }
      if e.out >= 0 { out := Max0(out) + e.out; }
      if e.read >= 0 { read := Max0(read) + e.read; }
      if e.write >= 0 { write := Max0(write) + e.write; }
      n := n + 1;
    }

    method Totals(ghost t: Tokens) returns (r: Tokens)
      requires Sums(t)
      ensures r == t
    {
      r := Tokens(Max0(uncached) + Max0(read) + Max0(write), Max0(read), Max0(write), Max0(out));
    }
  }

  // ---------------------------------------------------------------- the whole

  /** What is told of the attempts before a fallback. */
  datatype Prior = Prior(tokens: Tokens, attempts: nat, billed: nat, unverified: nat)

  /** `read_iterations`: the sums, the attempts held and how many were past the cap. */
  method ReadIterations(es: seq<Entry>) returns (spoken: Attempts, declined: nat, held: seq<Held>, over: nat, fallback: bool)
    ensures var ds := Declined(es); var n := |ds|;
            && declined == n && spoken.Sums(Spoken(ds, n)) && spoken.n == SpokenCount(ds, n)
            && held == HeldList(ds, n) && over == OverCount(ds, n)
    ensures fallback <==> exists k | 0 <= k < |es| :: es[k].kind.Fallback?
  {
    hide Spoken, SpokenCount, HeldList, OverCount, HeldCount, TokensOf, Plus;
    spoken := new Attempts();
    declined, held, over, fallback := 0, [], 0, false;
    ghost var ds: seq<Entry> := [];
    assert es[..0] == [];
    NoAttempts();
    for i := 0 to |es|
      invariant ds == Declined(es[..i]) && declined == |ds| && fresh(spoken)
      invariant spoken.Sums(Spoken(ds, |ds|)) && spoken.n == SpokenCount(ds, |ds|)
      invariant held == HeldList(ds, |ds|) && over == OverCount(ds, |ds|)
      invariant fallback <==> exists k | 0 <= k < i :: es[k].kind.Fallback?
    {
      var e := es[i];
      assert es[..i + 1][..i] == es[..i];
      if e.kind.Message? {
        OneMore(ds, e);
        if e.out > 0 {
          spoken.Add(e, Spoken(ds, |ds|));
        } else if |held| < MAX_HELD && declined < 256 {
          held := held + [Held(TokensOf(e), declined)];
        } else {
          over := over + 1;
        }
        declined := declined + 1;
        ds := ds + [e];
      } else if e.kind.Fallback? {
        fallback := true;
      }
    }
    assert es[..|es|] == es;
  }

  lemma NoAttempts()
    ensures Spoken([], 0) == NOTHING && SpokenCount([], 0) == 0 && HeldList([], 0) == [] && OverCount([], 0) == 0
  {}

  lemma OneMore(ds: seq<Entry>, e: Entry)
    ensures var n, more := |ds|, ds + [e];
            && (IsHeld(more, n) <==> Silent(e) && |HeldList(ds, n)| < MAX_HELD && n < 256)
            && Spoken(more, n + 1) == (if Silent(e) then Spoken(ds, n) else Plus(Spoken(ds, n), TokensOf(e)))
            && SpokenCount(more, n + 1) == SpokenCount(ds, n) + (if Silent(e) then 0 else 1)
            && HeldList(more, n + 1) == HeldList(ds, n) + (if IsHeld(more, n) then [Held(TokensOf(e), n)] else [])
            && OverCount(more, n + 1) == OverCount(ds, n) + (if Silent(e) && !IsHeld(more, n) then 1 else 0)
  {
    hide HeldList;
    HeldPrefix(ds, e, |ds|);
    SumsPrefix(ds, e, |ds|);
    HeldListMore(ds, e);
  }

  lemma HeldListMore(ds: seq<Entry>, e: Entry)
    ensures var n, more := |ds|, ds + [e];
            HeldList(more, n + 1) == HeldList(ds, n) + (if IsHeld(more, n) then [Held(TokensOf(e), n)] else [])
  {
    hide TokensOf;
    HeldListPrefix(ds, e, |ds|);
  }

  // ---------------------------------------------------------------- judging what was held

  predicate HeldBilled(h: Held, t: Triggers)
    requires t.Ok()
  {
    t.Names(h.index) && t.billed[h.index]
  }

  /** What the first `k` attempts held add once judged. */
  function Judged(held: seq<Held>, t: Triggers): Prior
    requires t.Ok()
  {
    if held == [] then Prior(NOTHING, 0, 0, 0)
    else
      var p, h := Judged(held[..|held| - 1], t), held[|held| - 1];
      if HeldBilled(h, t) then p.(tokens := Plus(p.tokens, h.tokens), billed := p.billed + 1)
      else if !t.Names(h.index) then p.(unverified := p.unverified + 1) else p
  }

  lemma JudgedMore(held: seq<Held>, h: Held, t: Triggers)
    requires t.Ok()
    ensures var p := Judged(held, t);
            Judged(held + [h], t) == if HeldBilled(h, t) then p.(tokens := Plus(p.tokens, h.tokens), billed := p.billed + 1)
                                     else if !t.Names(h.index) then p.(unverified := p.unverified + 1) else p
  {
    assert (held + [h])[..|held|] == held;
  }

  lemma PlusRearranges(a: Tokens, b: Tokens, c: Tokens)
    ensures Plus(Plus(a, b), c) == Plus(Plus(a, c), b) == Plus(a, Plus(b, c)) && Plus(a, NOTHING) == a
  {}

  /** The sums and what was held, judged, account for every attempt. */
  lemma {:induction false} Accounted(ds: seq<Entry>, t: Triggers, k: nat)
    requires k <= |ds| && t.Ok()
    ensures var p := Judged(HeldList(ds, k), t);
            && BilledTokens(ds, t, k) == Plus(Spoken(ds, k), p.tokens)
            && Count(ds, t, k, Billed) == SpokenCount(ds, k) + p.billed
            && Count(ds, t, k, Unverified) == OverCount(ds, k) + p.unverified
    decreases k
  {
    hide TokensOf, Judged, Plus, HeldCount;
    if k == 0 {
      assert Judged([], t) == Prior(NOTHING, 0, 0, 0) by { NoneJudged(t); }
      PlusRearranges(NOTHING, NOTHING, NOTHING);
    } else {
      Accounted(ds, t, k - 1);
      var held, e := HeldList(ds, k - 1), ds[k - 1];
      var before := Judged(held, t);
      JudgedMore(held, Held(TokensOf(e), k - 1), t);
      PlusRearranges(Spoken(ds, k - 1), before.tokens, TokensOf(e));
      PlusRearranges(Spoken(ds, k - 1), before.tokens, NOTHING);
      PlusRearranges(BilledTokens(ds, t, k - 1), NOTHING, NOTHING);
      PlusRearranges(Spoken(ds, k - 1), NOTHING, NOTHING);
      assert !IsHeld(ds, k - 1) ==> held + [] == held;
    }
  }

  lemma NoneJudged(t: Triggers)
    requires t.Ok()
    ensures Judged([], t) == Prior(NOTHING, 0, 0, 0)
  {}

  /** `bill_declined`: each held attempt judged by the category named for it. */
  method BillDeclined(u0: Prior, held: seq<Held>, t: Triggers) returns (u: Prior)
    requires t.Ok()
    ensures var p := Judged(held, t);
            u == Prior(Plus(u0.tokens, p.tokens), u0.attempts, u0.billed + p.billed, u0.unverified + p.unverified)
  {
    hide Judged, Plus;
    u := u0;
    assert held[..0] == [];
    NoneJudged(t);
    PlusRearranges(u0.tokens, NOTHING, NOTHING);
    for i := 0 to |held|
      invariant var p := Judged(held[..i], t);
                u == Prior(Plus(u0.tokens, p.tokens), u0.attempts, u0.billed + p.billed, u0.unverified + p.unverified)
    {
      var h := held[i];
      JudgedMore(held[..i], h, t);
      assert held[..i + 1] == held[..i] + [h];
      PlusRearranges(u0.tokens, Judged(held[..i], t).tokens, h.tokens);
      var named := t.Names(h.index);
      if named && t.billed[h.index] {
        u := u.(tokens := Plus(u.tokens, h.tokens), billed := u.billed + 1);
      } else if !named {
        u := u.(unverified := u.unverified + 1);
      }
    }
    assert held[..|held|] == held;
  }

  /** For every reply: with a fallback, its declined attempts are told whole, every one counted once
      as billed, unverified or in a category named free, and the tokens are the billed ones'. */
  method Account(es: seq<Entry>, t: Triggers) returns (told: bool, u: Prior)
    requires t.Ok()
    ensures told <==> Declined(es) != [] && exists k | 0 <= k < |es| :: es[k].kind.Fallback?
    ensures var ds := Declined(es); var n := |ds|;
            told ==>
              && u.tokens == BilledTokens(ds, t, n) && u.attempts == n
              && u.billed == Count(ds, t, n, Billed) && u.unverified == Count(ds, t, n, Unverified)
              && u.attempts == u.billed + u.unverified + Count(ds, t, n, Free)
  {
    hide Spoken, SpokenCount, HeldList, OverCount, BilledTokens, Count, Judged, Plus, Declined;
    var spoken, declined, held, over, fallback := ReadIterations(es);
    ghost var ds := Declined(es);
    u := Prior(NOTHING, 0, 0, 0);
    if !(declined > 0 && fallback) { return false, u; }
    var tokens := spoken.Totals(Spoken(ds, |ds|));
    u := Prior(tokens, declined, spoken.n, over);
    u := BillDeclined(u, held, t);
    Accounted(ds, t, |ds|);
    FatesAdd(ds, t, |ds|);
    told := true;
  }

  // ---------------------------------------------------------------- which attempts are billed

  /** How many of the first `k` attempts, as far as a byte can index them, gave no output. */
  function Quiet(ds: seq<Entry>, k: nat): nat
    requires k <= |ds|
  {
    if k == 0 then 0 else Quiet(ds, k - 1) + if ds[k - 1].out <= 0 && k - 1 < 256 then 1 else 0
  }

  lemma {:induction false} HeldFirstFour(ds: seq<Entry>, k: nat)
    requires k <= |ds|
    ensures HeldCount(ds, k) == if Quiet(ds, k) < 4 then Quiet(ds, k) else 4
    decreases k
  {
    if k > 0 { HeldFirstFour(ds, k - 1); }
  }

  /** An attempt is billed if it gave output, or if a billed category is named for it and it is among
      the first four that gave none; it is free if the category named for such a one is not billed. */
  lemma FateIs(ds: seq<Entry>, t: Triggers, k: nat)
    requires k < |ds| && t.Ok()
    ensures var known := ds[k].out <= 0 && Quiet(ds, k) < 4 && k < t.n && k < 8;
            && (FateOf(ds, t, k) == Billed <==> ds[k].out > 0 || (known && t.billed[k]))
            && (FateOf(ds, t, k) == Free <==> known && !t.billed[k])
  {
    HeldFirstFour(ds, k);
  }

  /** What a billed attempt adds: each count that is stated, the prompt with both parts of the cache. */
  lemma BilledAdds(ds: seq<Entry>, t: Triggers, k: nat)
    requires k < |ds| && t.Ok() && ds[k].uncached >= 0 && ds[k].read >= 0 && ds[k].write >= 0 && ds[k].out > 0
    ensures var a, b, e := BilledTokens(ds, t, k), BilledTokens(ds, t, k + 1), ds[k];
            && b.prompt == a.prompt + e.uncached + e.read + e.write && b.cached == a.cached + e.read
            && b.written == a.written + e.write && b.out == a.out + e.out
  {}
}
