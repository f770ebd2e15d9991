/** Searching minute boundaries for the earliest instant whose local minute is acceptable. */
module MinuteClock {
  import opened Base

  const MINUTE: int := 60_000
  const DAY: int := 1_440 * MINUTE

  /** A predicate on minutes of the day. */
  type MinuteRule = int -> bool

  /** The local minute of the day in a zone that is a whole number of minutes from UTC. */
  function LocalMinute(t: Instant, offset: int): (minute: int)
    ensures 0 <= minute < 1_440
  {
    (t / MINUTE + offset) % 1_440
  }

  /** Math.ceil of a quotient. */
  function CeilDiv(a: int, b: int): int
    requires b > 0
  {
    if a % b == 0 then a / b else a / b + 1
  }

  function NextMinute(t: Instant): Instant {
    CeilDiv(t + 1, MINUTE) * MINUTE
  }

  predicate OnBoundary(t: Instant) {
    t % MINUTE == 0
  }

  /** A window of minutes; it wraps past midnight unless its start comes before its end. */
  predicate InWindow(minute: int, start: int, end: int) {
    if start < end then start <= minute < end else minute >= start || minute < end
  }

  predicate MinuteOfDay(minute: int) {
    0 <= minute < 1_440
  }

  predicate Good(rule: MinuteRule, offset: int, t: Instant) {
    rule(LocalMinute(t, offset))
  }

  /** Up to `tries` candidates: `t` itself, then one minute boundary after the other. */
  function Seek(rule: MinuteRule, offset: int, t: Instant, tries: nat): Option<Instant>
    decreases tries, t
  {
    if tries == 0 then None
    else if Good(rule, offset, t) then Some(t)
    else Seek(rule, offset, NextMinute(t), tries - 1)
  }

  /** From a boundary that does not match, the search goes on one minute later. */
  lemma SeekOn(rule: MinuteRule, offset: int, t: Instant, tries: nat)
    requires tries > 0 && OnBoundary(t) && !Good(rule, offset, t)
    ensures OnBoundary(t + MINUTE)
    ensures Seek(rule, offset, t, tries) == Seek(rule, offset, t + MINUTE, tries - 1)
  {
    NextBoundary(t);
  }

  // ----- minute arithmetic -----

  /** The next minute is the first boundary after `t`. */
  lemma NextMinuteIsFirst(t: Instant)
    ensures OnBoundary(NextMinute(t)) && t < NextMinute(t) <= t + MINUTE
    ensures NextMinute(t) == (t / MINUTE + 1) * MINUTE
    ensures forall u :: t < u < NextMinute(t) ==> !OnBoundary(u)
    ensures OnBoundary(t) ==> NextMinute(t) == t + MINUTE
  {
  }

  lemma NextBoundary(t: Instant)
    ensures OnBoundary(NextMinute(t))
    ensures OnBoundary(t) ==> NextMinute(t) == t + MINUTE
  {
  }

  /** The local minute only changes at boundaries. */
  lemma SameMinute(t: Instant, u: Instant, offset: int)
    requires t <= u < NextMinute(t)
    ensures LocalMinute(u, offset) == LocalMinute(t, offset)
  {
  }

  /** The boundary `k` minutes after `t`'s minute. */
  function Boundary(t: Instant, k: nat): Instant {
    (t / MINUTE + k) * MINUTE
  }

  lemma BoundaryMinute(t: Instant, k: nat, offset: int)
    ensures LocalMinute(Boundary(t, k), offset) == (LocalMinute(t, offset) + k) % 1_440
    ensures NextMinute(Boundary(t, k)) == Boundary(t, k + 1)
    ensures Boundary(t, 1) == NextMinute(t)
  {
    var b := Boundary(t, k);
    assert b / MINUTE == t / MINUTE + k && OnBoundary(b);
    NextMinuteIsFirst(b);
    NextMinuteIsFirst(t);
    ModularSum(t / MINUTE + offset, k);
  }

  lemma ModularSum(a: int, k: nat)
    ensures (a + k) % 1_440 == (a % 1_440 + k) % 1_440
  {
  }

  /** Every minute of the day comes round within a day. */
  lemma MinuteComesRound(t: Instant, minute: int, offset: int) returns (k: nat)
    requires MinuteOfDay(minute)
    ensures 1 <= k <= 1_440 && LocalMinute(Boundary(t, k), offset) == minute
  {
    var now := LocalMinute(t, offset);
    k := if minute > now then minute - now else minute + 1_440 - now;
    BoundaryMinute(t, k, offset);
  }

  // ----- the search -----

  /** `found` is the earliest instant at or after `t` that the rule accepts. */
  ghost predicate Earliest(rule: MinuteRule, offset: int, t: Instant, found: Instant) {
    && t <= found
    && Good(rule, offset, found)
    && forall u :: t <= u < found ==> !Good(rule, offset, u)
  }

  lemma {:induction false} SeekFindsEarliest(rule: MinuteRule, offset: int, t: Instant, tries: nat)
    requires Seek(rule, offset, t, tries).Some?
    ensures Earliest(rule, offset, t, Seek(rule, offset, t, tries).value)
    decreases tries
  {
    if !Good(rule, offset, t) {
      var next := NextMinute(t);
      NextMinuteIsFirst(t);
      SeekFindsEarliest(rule, offset, next, tries - 1);
      forall u | t <= u < next ensures !Good(rule, offset, u) {
        SameMinute(t, u, offset);
      }
    }
  }

  /** If a good boundary lies within reach, the search stops there at the latest. */
  lemma {:induction false} SeekReaches(rule: MinuteRule, offset: int, t: Instant, k: nat, tries: nat)
    requires k < tries && Good(rule, offset, if k == 0 then t else Boundary(t, k))
    ensures Seek(rule, offset, t, tries).Some?
    ensures Seek(rule, offset, t, tries).value <= if k == 0 then t else Boundary(t, k)
    decreases tries
  {
    if !Good(rule, offset, t) {
      var next := NextMinute(t);
      BoundaryMinute(t, 1, offset);
      NextMinuteIsFirst(t);
      assert next / MINUTE == t / MINUTE + 1;
      assert Boundary(next, k - 1) == Boundary(t, k);
      SeekReaches(rule, offset, next, k - 1, tries - 1);
    } else if k > 0 {
      assert t < Boundary(t, 1) <= Boundary(t, k);
    }
  }

  /** More than a day of candidates is as good as unlimited: the search fails only when no minute of the day is
      acceptable. */
  lemma SeekDecides(rule: MinuteRule, offset: int, t: Instant, tries: nat)
    requires tries > 1_440
    ensures Seek(rule, offset, t, tries).Some? <==> exists minute :: MinuteOfDay(minute) && rule(minute)
    ensures Seek(rule, offset, t, tries).Some? ==>
              Earliest(rule, offset, t, Seek(rule, offset, t, tries).value) &&
              Seek(rule, offset, t, tries).value <= t + DAY
  {
    if exists minute :: MinuteOfDay(minute) && rule(minute) {
      var minute :| MinuteOfDay(minute) && rule(minute);
      var k := MinuteComesRound(t, minute, offset);
      SeekReaches(rule, offset, t, k, tries);
      assert Boundary(t, k) <= t + DAY;
    }
    if Seek(rule, offset, t, tries).Some? {
      SeekFindsEarliest(rule, offset, t, tries);
      assert MinuteOfDay(LocalMinute(Seek(rule, offset, t, tries).value, offset));
    }
  }
}
