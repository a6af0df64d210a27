/** How long an upload may take (`Engine::body_deadline` in gateway/src/core/body.cpp). Times are
    nanoseconds. The arithmetic is unbounded: the source's fits 64 bits for bodies under 4 GiB.
 */
module Deadlines {

  /** `timeout` and `minRate`, in bytes a second, are off at 0 or less. */
  datatype Limits = Limits(timeout: int, grace: int, minRate: int)

  const SECOND: int := 1_000_000_000

  const NEVER: int := 0x7FFF_FFFF_FFFF_FFFF

  function Min(a: int, b: int): int { if b < a then b else a }

  /** The grace, and a second for every `minRate` bytes in. */
  function Earned(l: Limits, start: int, bodyIn: nat): int
    requires l.minRate > 0
  {
    start + l.grace + bodyIn * SECOND / l.minRate
  }

  /** The total limit or the earned time, whichever is sooner. */
  function Deadline(l: Limits, start: int, bodyIn: nat): int {
    var at := if l.timeout > 0 then start + l.timeout else NEVER;
    if l.minRate > 0 then Min(at, Earned(l, start, bodyIn)) else at
  }

  /** More bytes in never bring the deadline forward. */
  lemma DeadlineGrows(l: Limits, start: int, a: nat, b: nat)
    requires a <= b
    ensures Deadline(l, start, a) <= Deadline(l, start, b)
  {
    if l.minRate > 0 { QuotientGrows(a * SECOND, b * SECOND, l.minRate); }
  }

  lemma QuotientGrows(x: nat, y: nat, r: int)
    requires x <= y && r > 0
    ensures x / r <= y / r
  {
    QuotientReaches(y, r, x / r);
    QuotientReaches(x, r, x / r);
  }

  lemma QuotientReaches(x: nat, r: int, q: int)
    requires r > 0
    ensures x / r >= q <==> x >= r * q
  {
    assert x == r * (x / r) + x % r && 0 <= x % r < r;
    if x / r >= q { assert r * (x / r) >= r * q; }
    if x / r <= q - 1 { assert r * (x / r) <= r * (q - 1) == r * q - r; }
  }

  /** With the total limit off, an upload is in time exactly when past the grace it has averaged
      the minimum rate. */
  lemma SteadyUploadInTime(l: Limits, start: int, bodyIn: nat, now: int)
    requires l.timeout <= 0 && l.minRate > 0 && now <= NEVER
    ensures now <= Deadline(l, start, bodyIn) <==> bodyIn * SECOND >= l.minRate * (now - start - l.grace)
  {
    QuotientReaches(bodyIn * SECOND, l.minRate, now - start - l.grace);
  }

  /** With both limits on, it is in time exactly when it meets both. */
  lemma UploadInTime(l: Limits, start: int, bodyIn: nat, now: int)
    requires l.timeout > 0 && l.minRate > 0
    ensures now <= Deadline(l, start, bodyIn) <==>
            now - start <= l.timeout && bodyIn * SECOND >= l.minRate * (now - start - l.grace)
  {
    QuotientReaches(bodyIn * SECOND, l.minRate, now - start - l.grace);
  }
}
