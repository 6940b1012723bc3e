/**
 * When a member of staff is scheduled to work (packages/employees/src/presence.ts).
 *
 * Instants are milliseconds since the epoch. A zone is a table of offsets: how many
 * minutes ahead of UTC it is during a given UTC minute. A zone name the platform
 * cannot use reads as UTC, that is, as the offset 0.
 */
module Rota {
  import opened Prelude

  const MINUTE_MS: int := 60_000
  const HOUR_MS: int := 3_600_000
  const DAY_MS: int := 86_400_000
  const WEEK_MS: int := 604_800_000
  /** How far apart isScheduledThroughout looks. */
  const SAMPLE_MS: int := 300_000

  type Id = int

  /** Offset in minutes of a named zone during a UTC minute (counted from the epoch). */
  type Zones = (string, int) -> int

  /** 0 is Monday. */
  type Weekday = d: int | 0 <= d < 7

  /** A clock time of day in minutes; None is a text that is not a time. */
  type ClockTime = Option<int>

  datatype TimeWindow = TimeWindow(start: ClockTime, end: ClockTime)

  type WeeklySchedule = map<Weekday, seq<TimeWindow>>

  datatype Employee = Employee(
    id: Id,
    organizationId: Id,
    fullName: string,
    isActive: bool,
    timezone: string,
    workingHours: WeeklySchedule,
    breakSchedule: WeeklySchedule)

  datatype LocalClock = LocalClock(weekday: Weekday, minutes: int)

  function UtcMinute(instant: int): int {
    instant / MINUTE_MS
  }

  /** The epoch was a Thursday, weekday 3. */
  function ClockAt(zones: Zones, timezone: string, when: int): LocalClock {
    var local := UtcMinute(when) + zones(timezone, UtcMinute(when));
    LocalClock((local / 1440 + 3) % 7, local % 1440)
  }

  /** A window that ends at or before its start wraps past midnight. */
  predicate WindowContains(window: TimeWindow, minutes: int) {
    && window.start.Some? && window.end.Some?
    && var start, end := window.start.value, window.end.value;
       start != end &&
       if start < end then start <= minutes < end else start <= minutes || minutes < end
  }

  /** The part of a wrapping window that belongs to the day after it started. */
  predicate CarriesOver(window: TimeWindow, minutes: int) {
    window.start.Some? && window.end.Some? && window.start.value > window.end.value && minutes < window.end.value
  }

  function WindowsOn(schedule: WeeklySchedule, day: Weekday): seq<TimeWindow> {
    if day in schedule then schedule[day] else []
  }

  predicate ScheduleContains(schedule: WeeklySchedule, clock: LocalClock) {
    || (exists w :: w in WindowsOn(schedule, clock.weekday) && WindowContains(w, clock.minutes))
    || (exists w :: w in WindowsOn(schedule, (clock.weekday + 6) % 7) && CarriesOver(w, clock.minutes))
  }

  predicate IsScheduledAt(zones: Zones, employee: Employee, when: int) {
    && employee.isActive
    && employee.workingHours.Keys != {}
    && ScheduleContains(employee.workingHours, ClockAt(zones, employee.timezone, when))
    && !ScheduleContains(employee.breakSchedule, ClockAt(zones, employee.timezone, when))
  }

  /** The instants isScheduledThroughout looks at. */
  predicate IsSampled(startsAt: int, endsAt: int, when: int) {
    startsAt <= when < endsAt && ((when - startsAt) % SAMPLE_MS == 0 || when == endsAt - 1)
  }

  predicate IsScheduledThroughout(zones: Zones, employee: Employee, startsAt: int, endsAt: int) {
    startsAt < endsAt &&
    forall when :: startsAt <= when < endsAt && IsSampled(startsAt, endsAt, when) ==> IsScheduledAt(zones, employee, when)
  }

  /** The loop of the source, proved against the predicate the other modules reason with. */
  method CheckScheduledThroughout(zones: Zones, employee: Employee, startsAt: int, endsAt: int) returns (scheduled: bool)
    ensures scheduled == IsScheduledThroughout(zones, employee, startsAt, endsAt)
  {
    if endsAt <= startsAt {
      return false;
    }
    var t := startsAt;
    while t < endsAt
      invariant startsAt <= t && (t - startsAt) % SAMPLE_MS == 0
      invariant forall when :: startsAt <= when < t && when < endsAt && (when - startsAt) % SAMPLE_MS == 0
                  ==> IsScheduledAt(zones, employee, when)
    {
      if !IsScheduledAt(zones, employee, t) {
        assert IsSampled(startsAt, endsAt, t);
        return false;
      }
      t := t + SAMPLE_MS;
    }
    assert IsSampled(startsAt, endsAt, endsAt - 1);
    return IsScheduledAt(zones, employee, endsAt - 1);
  }

  // ---- what the sampling misses, and when it misses nothing ----

  predicate FiveMinuteTime(time: ClockTime) {
    time.Some? ==> time.value % 5 == 0
  }

  predicate FiveMinuteSchedule(schedule: WeeklySchedule) {
    forall d :: d in schedule ==> forall w :: w in schedule[d] ==> FiveMinuteTime(w.start) && FiveMinuteTime(w.end)
  }

  /** Every shift and break starts and ends on a five-minute mark. */
  predicate FiveMinuteRota(employee: Employee) {
    FiveMinuteSchedule(employee.workingHours) && FiveMinuteSchedule(employee.breakSchedule)
  }

  /** Local clocks agree with UTC on where the five-minute marks are, and jump only on them. */
  ghost predicate FiveMinuteZone(zones: Zones, timezone: string) {
    forall m :: FiveMinuteOffset(zones, timezone, m)
  }

  predicate FiveMinuteOffset(zones: Zones, timezone: string, utcMinute: int) {
    zones(timezone, utcMinute) % 5 == 0 && zones(timezone, utcMinute) == zones(timezone, utcMinute - utcMinute % 5)
  }

  lemma SameBlockSameWindow(w: TimeWindow, minutes: int)
    requires FiveMinuteTime(w.start) && FiveMinuteTime(w.end)
    ensures WindowContains(w, minutes) <==> WindowContains(w, minutes - minutes % 5)
    ensures CarriesOver(w, minutes) <==> CarriesOver(w, minutes - minutes % 5)
  {
  }

  lemma SameBlockSameSchedule(schedule: WeeklySchedule, clock: LocalClock)
    requires FiveMinuteSchedule(schedule)
    ensures ScheduleContains(schedule, clock)
       <==> ScheduleContains(schedule, clock.(minutes := clock.minutes - clock.minutes % 5))
  {
    var start := clock.minutes - clock.minutes % 5;
    forall w | w in WindowsOn(schedule, clock.weekday) || w in WindowsOn(schedule, (clock.weekday + 6) % 7)
      ensures WindowContains(w, clock.minutes) <==> WindowContains(w, start)
      ensures CarriesOver(w, clock.minutes) <==> CarriesOver(w, start)
    {
      SameBlockSameWindow(w, clock.minutes);
    }
  }

  lemma FiveMinuteMark(when: int)
    ensures UtcMinute(when - when % SAMPLE_MS) == UtcMinute(when) - UtcMinute(when) % 5
  {
    var q, r := when / SAMPLE_MS, when % SAMPLE_MS;
    assert when == 60_000 * (5 * q) + r;
    assert UtcMinute(when) == 5 * q + r / 60_000;
    assert 0 <= r / 60_000 < 5;
  }

  lemma SameDayBlock(local: int)
    ensures (local - local % 5) / 1440 == local / 1440
    ensures (local - local % 5) % 1440 == local % 1440 - (local % 1440) % 5
  {
    var d, r := local / 1440, local % 1440;
    assert local % 5 == r % 5 by {
      assert local == 5 * (288 * d + r / 5) + r % 5;
    }
    InDay(d, r - r % 5);
  }

  lemma InDay(day: int, minutes: int)
    requires 0 <= minutes < 1440
    ensures (1440 * day + minutes) / 1440 == day && (1440 * day + minutes) % 1440 == minutes
  {
  }

  lemma SameBlockSameClock(zones: Zones, timezone: string, when: int)
    requires FiveMinuteZone(zones, timezone)
    ensures var clock := ClockAt(zones, timezone, when);
            ClockAt(zones, timezone, when - when % SAMPLE_MS) == clock.(minutes := clock.minutes - clock.minutes % 5)
  {
    var m := UtcMinute(when);
    assert FiveMinuteOffset(zones, timezone, m);
    FiveMinuteMark(when);
    WholeFives(m, zones(timezone, m));
    SameDayBlock(m + zones(timezone, m));
  }

  lemma WholeFives(minute: int, offset: int)
    requires offset % 5 == 0
    ensures (minute + offset) % 5 == minute % 5
    ensures (minute - minute % 5) + offset == (minute + offset) - (minute + offset) % 5
  {
    assert minute + offset == 5 * (minute / 5 + offset / 5) + minute % 5;
  }

  lemma SameBlockSameAnswer(zones: Zones, employee: Employee, when: int)
    requires FiveMinuteRota(employee) && FiveMinuteZone(zones, employee.timezone)
    ensures IsScheduledAt(zones, employee, when) <==> IsScheduledAt(zones, employee, when - when % SAMPLE_MS)
  {
    SameBlockSameClock(zones, employee.timezone, when);
    SameBlockSameSchedule(employee.workingHours, ClockAt(zones, employee.timezone, when));
    SameBlockSameSchedule(employee.breakSchedule, ClockAt(zones, employee.timezone, when));
  }

  /** Scheduled at every instant of the span: what isScheduledThroughout is named for. */
  ghost predicate WorksThroughout(zones: Zones, employee: Employee, startsAt: int, endsAt: int) {
    startsAt < endsAt && forall when :: startsAt <= when < endsAt ==> IsScheduledAt(zones, employee, when)
  }

  /** The sampling decides as looking at every instant would, for one span. */
  ghost predicate SeesAll(zones: Zones, employee: Employee, startsAt: int, endsAt: int) {
    IsScheduledThroughout(zones, employee, startsAt, endsAt) <==> WorksThroughout(zones, employee, startsAt, endsAt)
  }

  /** Nowhere is the person away between two scheduled instants at most five minutes apart. */
  ghost predicate NoShortGap(zones: Zones, employee: Employee) {
    forall x, y, z :: x < y < z <= x + SAMPLE_MS && IsScheduledAt(zones, employee, x) && IsScheduledAt(zones, employee, z)
      ==> IsScheduledAt(zones, employee, y)
  }

  /** An instant of a span lies between two samples at most five minutes apart, or is the last. */
  lemma BetweenSamples(startsAt: int, endsAt: int, y: int) returns (x: int, z: int)
    requires startsAt <= y < endsAt
    ensures x <= y <= z <= x + SAMPLE_MS && IsSampled(startsAt, endsAt, x) && IsSampled(startsAt, endsAt, z)
    ensures y == z ==> y == x || y == endsAt - 1
  {
    var steps := (y - startsAt) / SAMPLE_MS;
    x := startsAt + SAMPLE_MS * steps;
    z := if x + SAMPLE_MS < endsAt then x + SAMPLE_MS else endsAt - 1;
    assert (x - startsAt) % SAMPLE_MS == 0 && (x + SAMPLE_MS - startsAt) % SAMPLE_MS == 0 by {
      WholeSamples(steps);
      WholeSamples(steps + 1);
    }
  }

  lemma WholeSamples(steps: int)
    ensures (SAMPLE_MS * steps) % SAMPLE_MS == 0
  {
  }

  lemma SamplingSeesAll(zones: Zones, employee: Employee, startsAt: int, endsAt: int)
    requires NoShortGap(zones, employee)
    ensures SeesAll(zones, employee, startsAt, endsAt)
  {
    if IsScheduledThroughout(zones, employee, startsAt, endsAt) {
      forall y | startsAt <= y < endsAt
        ensures IsScheduledAt(zones, employee, y)
      {
        var x, z := BetweenSamples(startsAt, endsAt, y);
        assert IsScheduledAt(zones, employee, x) && IsScheduledAt(zones, employee, z);
      }
    }
  }

  /** A short gap is missed by the span from just before it to just after. */
  lemma ShortGapIsMissed(zones: Zones, employee: Employee, x: int, y: int, z: int)
    requires x < y < z <= x + SAMPLE_MS && IsScheduledAt(zones, employee, x) && IsScheduledAt(zones, employee, z)
    requires !IsScheduledAt(zones, employee, y)
    ensures !SeesAll(zones, employee, x, z + 1)
  {
    forall when | x <= when < z + 1 && IsSampled(x, z + 1, when)
      ensures IsScheduledAt(zones, employee, when)
    {
      assert when == x || when == z;
    }
  }

  /**
   * Exactly when "every minute" is what is checked, whatever the appointment: when the rota has no
   * gap shorter than five minutes inside working time.
   */
  lemma SamplingIsExactWithoutShortGaps(zones: Zones, employee: Employee)
    ensures (forall startsAt, endsAt :: SeesAll(zones, employee, startsAt, endsAt)) <==> NoShortGap(zones, employee)
  {
    if NoShortGap(zones, employee) {
      forall startsAt, endsAt
        ensures SeesAll(zones, employee, startsAt, endsAt)
      {
        SamplingSeesAll(zones, employee, startsAt, endsAt);
      }
    } else {
      var x, y, z :| x < y < z <= x + SAMPLE_MS && IsScheduledAt(zones, employee, x) && IsScheduledAt(zones, employee, z)
                     && !IsScheduledAt(zones, employee, y);
      ShortGapIsMissed(zones, employee, x, y, z);
    }
  }

  lemma SameBlock(x: int, y: int, z: int)
    requires x < y < z <= x + SAMPLE_MS
    ensures y - y % SAMPLE_MS == x - x % SAMPLE_MS || y - y % SAMPLE_MS == z - z % SAMPLE_MS
  {
    var k, l, m := x / SAMPLE_MS, y / SAMPLE_MS, z / SAMPLE_MS;
    assert x == SAMPLE_MS * k + x % SAMPLE_MS && y == SAMPLE_MS * l + y % SAMPLE_MS && z == SAMPLE_MS * m + z % SAMPLE_MS;
    assert k <= l <= m <= k + 1;
  }

  /** On a rota and zone kept to five-minute marks, an appointment at any time is accepted exactly as it should be. */
  lemma SamplingIsExact(zones: Zones, employee: Employee, startsAt: int, endsAt: int)
    requires FiveMinuteRota(employee) && FiveMinuteZone(zones, employee.timezone)
    ensures NoShortGap(zones, employee) && SeesAll(zones, employee, startsAt, endsAt)
  {
    forall x, y, z | x < y < z <= x + SAMPLE_MS && IsScheduledAt(zones, employee, x) && IsScheduledAt(zones, employee, z)
      ensures IsScheduledAt(zones, employee, y)
    {
      SameBlockSameAnswer(zones, employee, x);
      SameBlockSameAnswer(zones, employee, y);
      SameBlockSameAnswer(zones, employee, z);
      SameBlock(x, y, z);
    }
    SamplingSeesAll(zones, employee, startsAt, endsAt);
  }

  /**
   * With a short gap "every minute" is not what is checked: a three-minute break at 10:01 is
   * not seen, and an appointment over it is accepted.
   */
  lemma SamplingMissesAShortBreak(zones: Zones)
    requires forall m :: zones("UTC", m) == 0
    ensures var hours := map[3 := [TimeWindow(Some(600), Some(660))]];
            var breaks := map[3 := [TimeWindow(Some(601), Some(604))]];
            var someone := Employee(1, 1, "Sam", true, "UTC", hours, breaks);
            && IsScheduledThroughout(zones, someone, 10 * HOUR_MS, 11 * HOUR_MS)
            && !IsScheduledAt(zones, someone, 10 * HOUR_MS + MINUTE_MS)
  {
    var hours: WeeklySchedule := map[3 := [TimeWindow(Some(600), Some(660))]];
    var breaks: WeeklySchedule := map[3 := [TimeWindow(Some(601), Some(604))]];
    var someone := Employee(1, 1, "Sam", true, "UTC", hours, breaks);
    assert WindowsOn(hours, 3)[0] == TimeWindow(Some(600), Some(660));
    assert WindowsOn(breaks, 3)[0] == TimeWindow(Some(601), Some(604));
    assert 3 in someone.workingHours.Keys;
    var onBreak := ClockAt(zones, "UTC", 10 * HOUR_MS + MINUTE_MS);
    assert onBreak == LocalClock(3, 601);
    assert WindowContains(WindowsOn(breaks, 3)[0], 601) && WindowsOn(breaks, 3)[0] in WindowsOn(breaks, onBreak.weekday);
    forall when | 10 * HOUR_MS <= when < 11 * HOUR_MS && IsSampled(10 * HOUR_MS, 11 * HOUR_MS, when)
      ensures IsScheduledAt(zones, someone, when)
    {
      var clock := ClockAt(zones, "UTC", when);
      assert 600 <= UtcMinute(when) < 660;
      assert clock == LocalClock(3, UtcMinute(when));
      assert WindowContains(WindowsOn(hours, 3)[0], clock.minutes);
      assert ScheduleContains(hours, clock);
      assert UtcMinute(when) % 5 == 0 || UtcMinute(when) == 659;
      assert WindowsOn(breaks, 2) == [];
      assert !ScheduleContains(breaks, clock);
    }
  }

  function OneShift(day: Weekday, window: TimeWindow): WeeklySchedule {
    map[day := [window]]
  }

  /**
   * A shift that wraps midnight is read on its own day and the next, as the source's comment
   * says, but also on the early hours of its own day, before it has started.
   */
  lemma WrappingShiftCoverage(day: Weekday, start: int, end: int, clock: LocalClock)
    requires 0 <= end < start < 1440 && 0 <= clock.minutes < 1440
    ensures ScheduleContains(OneShift(day, TimeWindow(Some(start), Some(end))), clock)
       <==> || (clock.weekday == day && start <= clock.minutes)
            || (clock.weekday == (day + 1) % 7 && clock.minutes < end)
            || (clock.weekday == day && clock.minutes < end)
  {
    var w := TimeWindow(Some(start), Some(end));
    var schedule := OneShift(day, w);
    var before: Weekday := (clock.weekday + 6) % 7;
    assert clock.weekday == (day + 1) % 7 <==> before == day;
    assert w in [w];
    assert clock.weekday == day ==> w in WindowsOn(schedule, clock.weekday);
    assert before == day ==> w in WindowsOn(schedule, before);
    assert ScheduleContains(schedule, clock)
      <==> (clock.weekday == day && WindowContains(w, clock.minutes)) || (before == day && CarriesOver(w, clock.minutes));
  }

  // ---- the week as a circle of minutes ----

  /** Minutes since Monday midnight on the person's own clock. */
  function WeekMinute(zones: Zones, timezone: string, when: int): int {
    var utc := when / 60_000;
    (utc + zones(timezone, utc) + 3 * 1440) % 10080
  }

  /**
   * The minutes a window of day `day` takes up: from its start to its end, into the next day when
   * it wraps, and then also the early hours of its own day.
   */
  predicate TakesUp(day: Weekday, window: TimeWindow, minute: int) {
    && window.start.Some? && window.end.Some?
    && var start, end, since := window.start.value, window.end.value, (minute - 1440 * day) % 10080;
       || (start < end && start <= since < end)
       || (start > end && (start <= since < 1440 + end || since < end))
  }

  ghost predicate IsTakenUp(schedule: WeeklySchedule, minute: int) {
    exists day: Weekday, i: nat :: day in schedule && i < |schedule[day]| && TakesUp(day, schedule[day][i], minute)
  }

  predicate IsClockTime(time: ClockTime) {
    time.Some? ==> 0 <= time.value < 1440
  }

  ghost predicate AreClockTimes(schedule: WeeklySchedule) {
    forall day: Weekday, i: nat :: day in schedule && i < |schedule[day]| ==>
      IsClockTime(schedule[day][i].start) && IsClockTime(schedule[day][i].end)
  }

  lemma WeekMinuteIs(zones: Zones, timezone: string, when: int)
    ensures var clock := ClockAt(zones, timezone, when);
            WeekMinute(zones, timezone, when) == 1440 * clock.weekday + clock.minutes && 0 <= clock.minutes < 1440
  {
    var local := UtcMinute(when) + zones(timezone, UtcMinute(when));
    var day, minutes := local / 1440, local % 1440;
    assert local + 3 * 1440 == 1440 * (day + 3) + minutes;
    var week, weekday := (day + 3) / 7, (day + 3) % 7;
    assert 1440 * (day + 3) + minutes == 10080 * week + (1440 * weekday + minutes);
    InWeek(week, 1440 * weekday + minutes);
  }

  lemma InWeek(week: int, minutes: int)
    requires 0 <= minutes < 10080
    ensures (10080 * week + minutes) % 10080 == minutes
  {
  }

  /** Which of the clock's two tests a window of that day meets. */
  lemma WindowTakesUp(day: Weekday, window: TimeWindow, clock: LocalClock)
    requires IsClockTime(window.start) && IsClockTime(window.end) && 0 <= clock.minutes < 1440
    ensures TakesUp(day, window, 1440 * clock.weekday + clock.minutes) <==>
            || (day == clock.weekday && WindowContains(window, clock.minutes))
            || (day == (clock.weekday + 6) % 7 && CarriesOver(window, clock.minutes))
  {
    var since := 1440 * (clock.weekday - day) + clock.minutes;
    assert 1440 * clock.weekday + clock.minutes - 1440 * day == since;
    InWeek(if since < 0 then -1 else 0, if since < 0 then since + 10080 else since);
  }

  lemma ScheduleTakesUp(schedule: WeeklySchedule, clock: LocalClock)
    requires AreClockTimes(schedule) && 0 <= clock.minutes < 1440
    ensures ScheduleContains(schedule, clock) <==> IsTakenUp(schedule, 1440 * clock.weekday + clock.minutes)
  {
    var before: Weekday := (clock.weekday + 6) % 7;
    forall day: Weekday, i: nat | day in schedule && i < |schedule[day]|
      ensures TakesUp(day, schedule[day][i], 1440 * clock.weekday + clock.minutes) <==>
              || (day == clock.weekday && WindowContains(schedule[day][i], clock.minutes))
              || (day == before && CarriesOver(schedule[day][i], clock.minutes))
    {
      WindowTakesUp(day, schedule[day][i], clock);
    }
    if w :| w in WindowsOn(schedule, clock.weekday) && WindowContains(w, clock.minutes) {
      var i: nat :| i < |schedule[clock.weekday]| && schedule[clock.weekday][i] == w;
      assert TakesUp(clock.weekday, schedule[clock.weekday][i], 1440 * clock.weekday + clock.minutes);
    } else if w :| w in WindowsOn(schedule, before) && CarriesOver(w, clock.minutes) {
      var i: nat :| i < |schedule[before]| && schedule[before][i] == w;
      assert TakesUp(before, schedule[before][i], 1440 * clock.weekday + clock.minutes);
    }
  }

  /**
   * Somebody is scheduled exactly when they are active, a window of theirs takes up the minute of
   * their own week, and no break does.
   */
  lemma ScheduledMeans(zones: Zones, employee: Employee, when: int)
    requires AreClockTimes(employee.workingHours) && AreClockTimes(employee.breakSchedule)
    ensures IsScheduledAt(zones, employee, when) <==>
            var minute := WeekMinute(zones, employee.timezone, when);
            employee.isActive && IsTakenUp(employee.workingHours, minute) && !IsTakenUp(employee.breakSchedule, minute)
  {
    var clock := ClockAt(zones, employee.timezone, when);
    WeekMinuteIs(zones, employee.timezone, when);
    ScheduleTakesUp(employee.workingHours, clock);
    ScheduleTakesUp(employee.breakSchedule, clock);
  }
}
