/**
 * A clock somebody typed, read in a business's zone (apps/web/lib/zoned-time.ts). Instants are
 * milliseconds; a zone is how far it is ahead of UTC at each instant. Parsing the typed date and
 * time as though it were UTC gives `guess`, or nothing when it cannot be read.
 */
module ZonedTime {
  import opened Prelude

  const SECOND_MS: int := 1000

  type Zone = int -> int

  /** Intl prints whole seconds, so what is measured loses the milliseconds of the instant. */
  function ZoneOffsetMs(zone: Zone, instant: int): int {
    var local := instant + zone(instant);
    (local - local % SECOND_MS) - instant
  }

  function WallClockToInstant(zone: Zone, guess: Option<int>): Option<int> {
    match guess
    case None => None
    case Some(typed) =>
      var instant := typed - ZoneOffsetMs(zone, typed);
      Some(typed - ZoneOffsetMs(zone, instant))
  }

  /** The wall clock a zone shows at an instant. */
  function WallClock(zone: Zone, instant: int): int {
    instant + zone(instant)
  }

  // ---- the zones it is for ----

  predicate IsTransition(zone: Zone, t: int) {
    zone(t - 1) != zone(t)
  }

  predicate OffsetWithin(zone: Zone, t: int, bound: int) {
    -bound <= zone(t) <= bound && zone(t) % SECOND_MS == 0
  }

  /**
   * Offsets are whole seconds of at most `bound` either way, and transitions are more than twice
   * the bound apart.
   */
  ghost predicate Steady(zone: Zone, bound: int) {
    && 0 <= bound
    && (forall t :: OffsetWithin(zone, t, bound))
    && (forall s, t :: s < t && IsTransition(zone, s) && IsTransition(zone, t) ==> t - s > 2 * bound)
  }

  /** Where the offset differs at the two ends, there is a transition between. */
  lemma {:induction false} TransitionBetween(zone: Zone, s: int, t: int) returns (at: int)
    requires s < t && zone(s) != zone(t)
    ensures s < at <= t && IsTransition(zone, at)
    decreases t - s
  {
    if zone(t - 1) != zone(t) {
      at := t;
    } else {
      at := TransitionBetween(zone, s, t - 1);
    }
  }

  /** So no span of twice the bound holds two changes: of three instants in it, the middle agrees with an end. */
  lemma OneChangeInSpan(zone: Zone, bound: int, s: int, m: int, t: int)
    requires Steady(zone, bound) && s <= m <= t <= s + 2 * bound
    ensures zone(s) == zone(m) || zone(m) == zone(t)
  {
    if zone(s) != zone(m) && zone(m) != zone(t) {
      var first := TransitionBetween(zone, s, m);
      var second := TransitionBetween(zone, m, t);
    }
  }

  lemma OneChange(zone: Zone, bound: int, a: int, b: int, c: int)
    requires Steady(zone, bound) && -2 * bound <= a - b <= 2 * bound && -2 * bound <= b - c <= 2 * bound && -2 * bound <= a - c <= 2 * bound
    ensures a <= b <= c || c <= b <= a ==> zone(a) == zone(b) || zone(b) == zone(c)
  {
    if a <= b <= c {
      OneChangeInSpan(zone, bound, a, b, c);
    } else if c <= b <= a {
      OneChangeInSpan(zone, bound, c, b, a);
    }
  }

  /** For whole seconds the measurement is the offset itself. */
  lemma MeasuredExactly(zone: Zone, bound: int, instant: int)
    requires Steady(zone, bound) && instant % SECOND_MS == 0
    ensures ZoneOffsetMs(zone, instant) == zone(instant)
  {
    assert OffsetWithin(zone, instant, bound);
  }

  /** For other instants it is the offset less the instant's milliseconds, which Intl does not print. */
  lemma MeasuredWithoutMilliseconds(zone: Zone, instant: int)
    requires zone(instant) % 1000 == 0
    ensures ZoneOffsetMs(zone, instant) == zone(instant) - instant % 1000
  {
    assert (instant + zone(instant)) % 1000 == instant % 1000;
  }

  lemma WholeSeconds(a: int, b: int)
    requires a % SECOND_MS == 0 && b % SECOND_MS == 0
    ensures (a - b) % SECOND_MS == 0
  {
  }

  /** What is computed, without the milliseconds. */
  function TwoPasses(zone: Zone, typed: int): int {
    typed - zone(typed - zone(typed))
  }

  lemma ComputesTwoPasses(zone: Zone, bound: int, typed: int)
    requires Steady(zone, bound) && typed % SECOND_MS == 0
    ensures WallClockToInstant(zone, Some(typed)) == Some(TwoPasses(zone, typed))
  {
    MeasuredExactly(zone, bound, typed);
    assert OffsetWithin(zone, typed, bound);
    WholeSeconds(typed, zone(typed));
    MeasuredExactly(zone, bound, typed - zone(typed));
  }

  /** A date or time that cannot be read gives no instant, and one that can gives one. */
  lemma UnreadableGivesNothing(zone: Zone, guess: Option<int>)
    ensures WallClockToInstant(zone, guess) == None <==> guess == None
  {
  }

  /** If some instant shows the typed clock, the two passes find one that does. */
  lemma TwoPassesFind(zone: Zone, bound: int, typed: int, x: int)
    requires Steady(zone, bound) && WallClock(zone, x) == typed
    ensures WallClock(zone, TwoPasses(zone, typed)) == typed
  {
    var first := typed - zone(typed);
    var result := typed - zone(first);
    assert OffsetWithin(zone, typed, bound) && OffsetWithin(zone, first, bound) && OffsetWithin(zone, x, bound);
    // The instants looked at and the right one all lie within `bound` of the typed clock.
    OneChange(zone, bound, typed, first, x);
    OneChange(zone, bound, first, typed, x);
    OneChange(zone, bound, typed, x, first);
    OneChange(zone, bound, first, result, x);
    OneChange(zone, bound, result, first, x);
    OneChange(zone, bound, first, x, result);
    OneChange(zone, bound, typed, first, result);
    OneChange(zone, bound, first, typed, result);
    OneChange(zone, bound, typed, result, first);
    OneChange(zone, bound, typed, result, x);
    OneChange(zone, bound, result, typed, x);
    OneChange(zone, bound, typed, x, result);
  }

  /**
   * For every zone with bounded offsets and transitions further apart than twice the bound: the
   * instant computed shows exactly the clock that was typed, whenever some instant does. That
   * covers both readings of an hour that happens twice; an hour the clocks skip has no instant.
   */
  lemma ReadsBackWheneverItCan(zone: Zone, bound: int, typed: int)
    requires Steady(zone, bound) && typed % SECOND_MS == 0
    ensures var instant := WallClockToInstant(zone, Some(typed));
            && instant.Some?
            && (WallClock(zone, instant.value) == typed <==> exists x :: WallClock(zone, x) == typed)
  {
    ComputesTwoPasses(zone, bound, typed);
    if exists x :: WallClock(zone, x) == typed {
      var x :| WallClock(zone, x) == typed;
      TwoPassesFind(zone, bound, typed, x);
    }
  }

  // ---- the hour the clocks skip ----

  /** The clocks go forward at `at`, over the typed clock. */
  predicate Skips(zone: Zone, at: int, typed: int) {
    at + zone(at - 1) <= typed < at + zone(at)
  }

  /** On either side of a transition the offset stays for twice the bound. */
  lemma StaysAround(zone: Zone, bound: int, at: int, t: int)
    requires Steady(zone, bound) && IsTransition(zone, at) && at - 2 * bound - 1 <= t <= at + 2 * bound
    ensures zone(t) == if t < at then zone(at - 1) else zone(at)
  {
    if t < at - 1 && zone(t) != zone(at - 1) {
      var other := TransitionBetween(zone, t, at - 1);
    } else if at < t && zone(at) != zone(t) {
      var other := TransitionBetween(zone, at, t);
    }
  }

  lemma SkippedHasNoInstant(zone: Zone, bound: int, at: int, typed: int, x: int)
    requires Steady(zone, bound) && Skips(zone, at, typed)
    ensures WallClock(zone, x) != typed
  {
    assert OffsetWithin(zone, at - 1, bound) && OffsetWithin(zone, at, bound) && OffsetWithin(zone, x, bound);
    if WallClock(zone, x) == typed {
      StaysAround(zone, bound, at, x);
    }
  }

  /** Where two passes do not settle, a transition between them skips the typed clock. */
  lemma UnsettledIsSkipped(zone: Zone, bound: int, typed: int) returns (at: int)
    requires Steady(zone, bound) && WallClock(zone, TwoPasses(zone, typed)) != typed
    ensures Skips(zone, at, typed)
  {
    var first, result := typed - zone(typed), TwoPasses(zone, typed);
    assert OffsetWithin(zone, typed, bound) && OffsetWithin(zone, first, bound) && OffsetWithin(zone, result, bound);
    if typed < first {
      at := TransitionBetween(zone, typed, first);
    } else {
      at := TransitionBetween(zone, first, typed);
    }
    StaysAround(zone, bound, at, typed);
    StaysAround(zone, bound, at, first);
    StaysAround(zone, bound, at, result);
  }

  /**
   * What a clock in a skipped hour is turned into: an instant that shows it later by as much as the
   * clocks went forward when, taken for UTC, it is not before the change, as in zones ahead of UTC,
   * and earlier by as much when it is before, as in zones behind.
   */
  lemma SkippedHourMoves(zone: Zone, bound: int, at: int, typed: int)
    requires Steady(zone, bound) && typed % SECOND_MS == 0 && Skips(zone, at, typed)
    ensures var jump := zone(at) - zone(at - 1);
            var instant := WallClockToInstant(zone, Some(typed));
            && instant == Some(typed - if typed < at then zone(at) else zone(at - 1))
            && WallClock(zone, instant.value) == if typed < at then typed - jump else typed + jump
  {
    ComputesTwoPasses(zone, bound, typed);
    assert OffsetWithin(zone, at - 1, bound) && OffsetWithin(zone, at, bound);
    StaysAround(zone, bound, at, typed);
    StaysAround(zone, bound, at, typed - zone(typed));
    StaysAround(zone, bound, at, TwoPasses(zone, typed));
  }

  /** And those are all the clocks that no instant shows. */
  lemma SkippedExactly(zone: Zone, bound: int, typed: int)
    requires Steady(zone, bound)
    ensures (exists at :: Skips(zone, at, typed)) <==> forall x :: WallClock(zone, x) != typed
  {
    if at :| Skips(zone, at, typed) {
      forall x
        ensures WallClock(zone, x) != typed
      {
        SkippedHasNoInstant(zone, bound, at, typed, x);
      }
    } else if WallClock(zone, TwoPasses(zone, typed)) != typed {
      var at := UnsettledIsSkipped(zone, bound, typed);
    }
  }

  function OnePass(zone: Zone, typed: int): int {
    typed - ZoneOffsetMs(zone, typed)
  }

  /** A zone three hours behind UTC that puts its clocks forward an hour at the epoch. */
  function SpringForward(): Zone {
    t => if t < 0 then -10_800_000 else -7_200_000
  }

  /**
   * One pass is not enough: a clock typed just before the change in UTC terms, but after it in
   * the zone's, is read on the wrong side and stays there. Two passes settle it.
   */
  lemma OnePassIsNotEnough()
    ensures Steady(SpringForward(), 10_800_000)
    ensures var typed := -3_600_000;
            && WallClock(SpringForward(), OnePass(SpringForward(), typed)) != typed
            && WallClock(SpringForward(), TwoPasses(SpringForward(), typed)) == typed
  {
  }
}
