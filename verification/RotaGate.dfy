/**
 * hasAnyoneOnARota (packages/agents/src/availability.ts), which decides whether an agent is
 * given the booking tools at all (packages/agents/src/switchboard.ts), against the search
 * that those tools would run.
 */
module RotaGate {
  import opened Prelude
  import opened Rota
  import Diary
  import opened Availability

  const HORIZON_MS: int := 7 * DAY_MS

  /** The half-hours from `from`, for a week. */
  predicate IsLookedAt(from: int, t: int) {
    from <= t < from + HORIZON_MS && (t - from) % GRID_MS == 0
  }

  predicate SeenWorking(zones: Zones, staff: seq<Employee>, t: int) {
    exists i :: 0 <= i < |staff| && IsScheduledAt(zones, staff[i], t)
  }

  predicate OnARota(zones: Zones, staff: seq<Employee>, from: int) {
    exists t :: from <= t < from + HORIZON_MS && IsLookedAt(from, t) && SeenWorking(zones, staff, t)
  }

  method HasAnyoneOnARota(zones: Zones, staff: seq<Employee>, from: int) returns (anyone: bool)
    ensures anyone == OnARota(zones, staff, from)
  {
    if |staff| == 0 {
      return false;
    }
    var end := from + HORIZON_MS;
    var t := from;
    while t < end
      invariant from <= t && (t - from) % GRID_MS == 0
      invariant forall u :: from <= u < t && IsLookedAt(from, u) ==> !SeenWorking(zones, staff, u)
    {
      if SeenWorking(zones, staff, t) {
        assert IsLookedAt(from, t);
        return true;
      }
      forall u | from <= u < t + GRID_MS && IsLookedAt(from, u)
        ensures !SeenWorking(zones, staff, u)
      {
        if u >= t {
          OneLookPerStep(from, t, u);
        }
      }
      t := t + GRID_MS;
    }
    return false;
  }

  lemma OneLookPerStep(from: int, t: int, u: int)
    requires (t - from) % GRID_MS == 0 && (u - from) % GRID_MS == 0 && t <= u < t + GRID_MS
    ensures u == t
  {
    assert u - from == (t - from) + (u - t);
  }

  // ---- when the gate sees whoever the search would offer ----

  /** Only the clock decides. */
  lemma SameClockSameAnswer(zones: Zones, employee: Employee, t: int, u: int)
    requires ClockAt(zones, employee.timezone, t) == ClockAt(zones, employee.timezone, u)
    ensures IsScheduledAt(zones, employee, t) <==> IsScheduledAt(zones, employee, u)
  {
  }

  /** The end of a seven-day search from that instant. */
  function LatestEnd(from: int): int {
    NextGridPoint(from + MIN_LEAD_MS) + HORIZON_MS
  }

  /** A slot of half an hour or more, in whole minutes, that the search may look at. */
  predicate SlotFits(from: int, t: int, minutes: int) {
    minutes >= 30 && t % GRID_MS == 0 && from + MIN_LEAD_MS <= t && EndOf(t, minutes * MINUTE_MS) <= LatestEnd(from)
  }

  /** One of the gate's looks falls on that weekday and minute in the zone. */
  predicate LooksAtClock(zones: Zones, timezone: string, from: int, clock: LocalClock) {
    exists t :: from <= t < from + HORIZON_MS && IsLookedAt(from, t) && ClockAt(zones, timezone, t) == clock
  }

  /** So does one of the instants at which the search asks whether somebody works throughout the slot. */
  predicate SlotCaught(zones: Zones, timezone: string, from: int, t: int, end: int) {
    exists sample :: t <= sample < end && IsSampled(t, end, sample) && LooksAtClock(zones, timezone, from, ClockAt(zones, timezone, sample))
  }

  ghost predicate GateSees(zones: Zones, timezone: string, from: int) {
    forall t, minutes :: SlotFits(from, t, minutes) ==> SlotCaught(zones, timezone, from, t, EndOf(t, minutes * MINUTE_MS))
  }

  lemma CaughtSlotIsSeen(zones: Zones, staff: seq<Employee>, j: nat, from: int, t: int, end: int)
    requires j < |staff| && IsScheduledThroughout(zones, staff[j], t, end)
    requires SlotCaught(zones, staff[j].timezone, from, t, end)
    ensures OnARota(zones, staff, from)
  {
    var e := staff[j];
    var sample :| t <= sample < end && IsSampled(t, end, sample)
                  && LooksAtClock(zones, e.timezone, from, ClockAt(zones, e.timezone, sample));
    var look :| from <= look < from + HORIZON_MS && IsLookedAt(from, look)
                && ClockAt(zones, e.timezone, look) == ClockAt(zones, e.timezone, sample);
    SameClockSameAnswer(zones, e, look, sample);
    assert SeenWorking(zones, staff, look);
  }

  /** The gate, looking at the instant of the query, withholds the tools from a search that has a slot. */
  ghost predicate GateMisses(zones: Zones, db: Diary.Database, staff: seq<Employee>, query: AvailabilityQuery, t: int) {
    && query.days == 7 && DurationMs(query.durationMinutes) >= GRID_MS
    && IsStaffList(db, query.organizationId, staff)
    && Offerable(TakerAt(zones, db, staff, query), HorizonOf(query), t)
    && !OnARota(zones, staff, query.from)
  }

  lemma OfferedSlotFits(who: int -> Option<Employee>, query: AvailabilityQuery, t: int) returns (minutes: int)
    requires query.days == 7 && DurationMs(query.durationMinutes) >= GRID_MS && Offerable(who, HorizonOf(query), t)
    ensures DurationMs(query.durationMinutes) == minutes * MINUTE_MS && SlotFits(query.from, t, minutes)
  {
    minutes := Max(5, (query.durationMinutes + 0.5).Floor);
  }

  lemma TakerOnStaff(zones: Zones, db: Diary.Database, staff: seq<Employee>, wanted: Option<Id>, start: int, end: int) returns (j: nat)
    requires Taker(zones, db, Candidates(staff, wanted), start, end).Some?
    ensures j < |staff| && IsScheduledThroughout(zones, staff[j], start, end)
  {
    var candidates := Candidates(staff, wanted);
    var i :| 0 <= i < |candidates| && CanTake(zones, db, candidates[i], start, end);
    assert candidates[i] in staff;
    j :| 0 <= j < |staff| && staff[j] == candidates[i];
  }

  /** Whoever the gate misses is in a zone whose clock it does not see. */
  lemma MissedStaffAreUnseen(zones: Zones, db: Diary.Database, staff: seq<Employee>, query: AvailabilityQuery, t: int) returns (j: nat)
    requires GateMisses(zones, db, staff, query, t)
    ensures j < |staff| && !GateSees(zones, staff[j].timezone, query.from)
  {
    var minutes := OfferedSlotFits(TakerAt(zones, db, staff, query), query, t);
    var end := EndOf(t, minutes * MINUTE_MS);
    TakerAtIs(zones, db, staff, query, t);
    j := TakerOnStaff(zones, db, staff, query.employeeId, t, end);
    if SlotCaught(zones, staff[j].timezone, query.from, t, end) {
      CaughtSlotIsSeen(zones, staff, j, query.from, t, end);
    }
  }

  // ---- and a rota for every slot that it does not ----

  /** The clocks at which the search asks about a slot. */
  function SampleClocks(zones: Zones, timezone: string, t: int, minutes: int): (clocks: seq<LocalClock>)
    requires minutes > 0
    ensures |clocks| > 0 && forall i :: 0 <= i < |clocks| ==> 0 <= clocks[i].minutes < 1440
  {
    var n := (minutes + 4) / 5;
    seq(n + 1, i requires 0 <= i <= n => ClockAt(zones, timezone, if i < n then t + SAMPLE_MS * i else t + minutes * MINUTE_MS - 1))
  }

  lemma SampleIndex(t: int, minutes: int, sample: int)
    requires minutes > 0 && t <= sample < t + minutes * MINUTE_MS && (sample - t) % SAMPLE_MS == 0
    ensures 0 <= (sample - t) / SAMPLE_MS < (minutes + 4) / 5 && sample == t + SAMPLE_MS * ((sample - t) / SAMPLE_MS)
  {
  }

  lemma IndexedIsSample(t: int, minutes: int, i: int)
    requires minutes > 0 && 0 <= i < (minutes + 4) / 5
    ensures IsSampled(t, t + minutes * MINUTE_MS, t + SAMPLE_MS * i)
  {
    WholeSamples(i);
  }

  predicate AskedAbout(zones: Zones, timezone: string, t: int, end: int, clock: LocalClock) {
    exists sample :: t <= sample < end && IsSampled(t, end, sample) && ClockAt(zones, timezone, sample) == clock
  }

  lemma SampleClockIsAsked(zones: Zones, timezone: string, t: int, minutes: int, i: int)
    requires minutes > 0 && 0 <= i < |SampleClocks(zones, timezone, t, minutes)|
    ensures AskedAbout(zones, timezone, t, t + minutes * MINUTE_MS, SampleClocks(zones, timezone, t, minutes)[i])
  {
    var end := t + minutes * MINUTE_MS;
    if i < (minutes + 4) / 5 {
      IndexedIsSample(t, minutes, i);
    } else {
      assert IsSampled(t, end, end - 1);
    }
  }

  lemma AskedIsSampleClock(zones: Zones, timezone: string, t: int, minutes: int, sample: int)
    requires minutes > 0 && t <= sample < t + minutes * MINUTE_MS && IsSampled(t, t + minutes * MINUTE_MS, sample)
    ensures ClockAt(zones, timezone, sample) in SampleClocks(zones, timezone, t, minutes)
  {
    var clocks := SampleClocks(zones, timezone, t, minutes);
    if sample == t + minutes * MINUTE_MS - 1 {
      assert clocks[(minutes + 4) / 5] == ClockAt(zones, timezone, sample);
    } else {
      SampleIndex(t, minutes, sample);
      assert clocks[(sample - t) / SAMPLE_MS] == ClockAt(zones, timezone, sample);
    }
  }

  /** A shift of one minute; the last of the day runs up to midnight. */
  function OneMinute(minute: int): TimeWindow {
    TimeWindow(Some(minute), Some((minute + 1) % 1440))
  }

  lemma OneMinuteIs(minute: int, minutes: int)
    requires 0 <= minute < 1440 && 0 <= minutes < 1440
    ensures WindowContains(OneMinute(minute), minutes) <==> minutes == minute
    ensures !CarriesOver(OneMinute(minute), minutes)
  {
  }

  function MinutesOf(clocks: seq<LocalClock>, day: Weekday): (windows: seq<TimeWindow>)
    ensures forall i :: 0 <= i < |clocks| && clocks[i].weekday == day ==> OneMinute(clocks[i].minutes) in windows
    ensures forall w :: w in windows ==> exists i :: 0 <= i < |clocks| && clocks[i].weekday == day && w == OneMinute(clocks[i].minutes)
  {
    if clocks == [] then []
    else
      var rest := MinutesOf(clocks[1..], day);
      assert forall i :: 1 <= i < |clocks| ==> clocks[i] == clocks[1..][i - 1];
      (if clocks[0].weekday == day then [OneMinute(clocks[0].minutes)] else []) + rest
  }

  function ScheduleOf(clocks: seq<LocalClock>): WeeklySchedule {
    map day: Weekday | 0 <= day < 7 :: MinutesOf(clocks, day)
  }

  lemma ScheduleOfIs(clocks: seq<LocalClock>, clock: LocalClock)
    requires 0 <= clock.minutes < 1440 && forall i :: 0 <= i < |clocks| ==> 0 <= clocks[i].minutes < 1440
    ensures ScheduleContains(ScheduleOf(clocks), clock) <==> clock in clocks
  {
    var schedule := ScheduleOf(clocks);
    forall i | 0 <= i < |clocks|
      ensures WindowContains(OneMinute(clocks[i].minutes), clock.minutes) <==> clock.minutes == clocks[i].minutes
      ensures !CarriesOver(OneMinute(clocks[i].minutes), clock.minutes)
    {
      OneMinuteIs(clocks[i].minutes, clock.minutes);
    }
    if clock in clocks {
      var i :| 0 <= i < |clocks| && clocks[i] == clock;
      assert OneMinute(clock.minutes) in WindowsOn(schedule, clock.weekday);
    }
  }

  /** Works at exactly those clocks, and takes no break. */
  function WorksAt(timezone: string, clocks: seq<LocalClock>): Employee {
    Employee(1, 1, "Sam", true, timezone, ScheduleOf(clocks), map[])
  }

  lemma WorksAtIs(zones: Zones, timezone: string, clocks: seq<LocalClock>, when: int)
    requires forall i :: 0 <= i < |clocks| ==> 0 <= clocks[i].minutes < 1440
    ensures IsScheduledAt(zones, WorksAt(timezone, clocks), when) <==> ClockAt(zones, timezone, when) in clocks
  {
    ScheduleOfIs(clocks, ClockAt(zones, timezone, when));
    assert 0 in ScheduleOf(clocks).Keys;
    assert !ScheduleContains(map[], ClockAt(zones, timezone, when));
  }

  function OneEmployee(e: Employee): Diary.Database {
    Diary.Database(map[1 := e], map[], map[])
  }

  function WeekQuery(from: int, minutes: int): AvailabilityQuery {
    AvailabilityQuery(1, minutes as real, from, 7, 6, None)
  }

  lemma WeekQueryLasts(from: int, minutes: int)
    requires minutes >= 30
    ensures DurationMs(WeekQuery(from, minutes).durationMinutes) == minutes * MINUTE_MS
  {
    assert ((minutes as real) + 0.5).Floor == minutes;
  }

  lemma WorksTheSlot(zones: Zones, timezone: string, t: int, minutes: int)
    requires minutes > 0
    ensures IsScheduledThroughout(zones, WorksAt(timezone, SampleClocks(zones, timezone, t, minutes)), t, t + minutes * MINUTE_MS)
  {
    var clocks, end := SampleClocks(zones, timezone, t, minutes), t + minutes * MINUTE_MS;
    forall when | t <= when < end && IsSampled(t, end, when)
      ensures IsScheduledAt(zones, WorksAt(timezone, clocks), when)
    {
      AskedIsSampleClock(zones, timezone, t, minutes, when);
      WorksAtIs(zones, timezone, clocks, when);
    }
  }

  lemma NotSeenAnywhere(zones: Zones, timezone: string, from: int, t: int, minutes: int)
    requires minutes > 0 && !SlotCaught(zones, timezone, from, t, t + minutes * MINUTE_MS)
    ensures !OnARota(zones, [WorksAt(timezone, SampleClocks(zones, timezone, t, minutes))], from)
  {
    var clocks, end := SampleClocks(zones, timezone, t, minutes), t + minutes * MINUTE_MS;
    forall look | from <= look < from + HORIZON_MS && IsLookedAt(from, look)
      ensures !SeenWorking(zones, [WorksAt(timezone, clocks)], look)
    {
      var clock := ClockAt(zones, timezone, look);
      WorksAtIs(zones, timezone, clocks, look);
      if clock in clocks {
        var i :| 0 <= i < |clocks| && clocks[i] == clock;
        SampleClockIsAsked(zones, timezone, t, minutes, i);
      }
    }
  }

  /** Somebody who works just when the search asks about that slot is offered it, unseen by the gate. */
  lemma UncaughtSlotIsMissed(zones: Zones, timezone: string, from: int, t: int, minutes: int)
      returns (db: Diary.Database, staff: seq<Employee>, query: AvailabilityQuery)
    requires SlotFits(from, t, minutes) && !SlotCaught(zones, timezone, from, t, EndOf(t, minutes * MINUTE_MS))
    ensures query.from == from && AllIn(staff, timezone) && GateMisses(zones, db, staff, query, t)
  {
    var e := WorksAt(timezone, SampleClocks(zones, timezone, t, minutes));
    db, staff, query := OneEmployee(e), [e], WeekQuery(from, minutes);
    WeekQueryLasts(from, minutes);
    NotSeenAnywhere(zones, timezone, from, t, minutes);
    WorksTheSlot(zones, timezone, t, minutes);
    var end := EndOf(t, DurationMs(query.durationMinutes));
    assert Candidates([e], None) == [e];
    assert Takes(zones, db, t, end)([e][0]);
    assert Taker(zones, db, [e], t, end).Some?;
    TakerAtIs(zones, db, staff, query, t);
  }

  predicate AllIn(staff: seq<Employee>, timezone: string) {
    forall i :: 0 <= i < |staff| ==> staff[i].timezone == timezone
  }

  /**
   * Exactly when withholding the tools can cost no slot of half an hour or more, whatever the rotas
   * of a zone: when every slot the search may look at is asked about at a weekday and minute that
   * the gate looks at too.
   */
  lemma GateIsRightExactlyWhenItSees(zones: Zones, timezone: string, from: int)
    ensures GateSees(zones, timezone, from) <==>
            forall db: Diary.Database, staff: seq<Employee>, query: AvailabilityQuery, t: int ::
              query.from == from && AllIn(staff, timezone) ==> !GateMisses(zones, db, staff, query, t)
  {
    if GateSees(zones, timezone, from) {
      forall db: Diary.Database, staff: seq<Employee>, query: AvailabilityQuery, t: int | query.from == from && AllIn(staff, timezone)
        ensures !GateMisses(zones, db, staff, query, t)
      {
        if GateMisses(zones, db, staff, query, t) {
          var j := MissedStaffAreUnseen(zones, db, staff, query, t);
        }
      }
    } else {
      var t, minutes :| SlotFits(from, t, minutes) && !SlotCaught(zones, timezone, from, t, EndOf(t, minutes * MINUTE_MS));
      var db, staff, query := UncaughtSlotIsMissed(zones, timezone, from, t, minutes);
    }
  }

  // ---- on a five-minute mark ----

  /** Two instants show the same weekday and minute when their local minutes are whole weeks apart. */
  lemma SameWeekMinute(a: int, b: int)
    ensures (a / 1440 + 3) % 7 == (b / 1440 + 3) % 7 && a % 1440 == b % 1440 <==> (a - b) % 10080 == 0
  {
    var da, db, ra, rb := a / 1440, b / 1440, a % 1440, b % 1440;
    assert a - b == 1440 * (da - db) + (ra - rb);
    if (da + 3) % 7 == (db + 3) % 7 && ra == rb {
      var k := (da + 3) / 7 - (db + 3) / 7;
      assert a - b == 10080 * k;
    }
    if (a - b) % 10080 == 0 {
      var k := (a - b) / 10080;
      assert a == 1440 * (db + 7 * k) + rb;
      InDay(db + 7 * k, rb);
    }
  }

  function Local(zones: Zones, timezone: string, t: int): int {
    UtcMinute(t) + zones(timezone, UtcMinute(t))
  }

  lemma SameClockIff(zones: Zones, timezone: string, t: int, u: int)
    ensures ClockAt(zones, timezone, t) == ClockAt(zones, timezone, u) <==>
            (Local(zones, timezone, t) - Local(zones, timezone, u)) % 10080 == 0
  {
    SameWeekMinute(Local(zones, timezone, t), Local(zones, timezone, u));
  }

  /**
   * At that minute the zone is as far ahead as a week earlier, or has since been put forward by whole
   * half-hours.
   */
  predicate HasNotGoneBack(zones: Zones, timezone: string, minute: int) {
    exists halves | 0 <= halves <= 333 :: zones(timezone, minute) == zones(timezone, minute - 10080 + 30 * halves) + 30 * halves
  }

  /** So it is in the hour and a half past the gate's week that the search still reaches. */
  ghost predicate SteadyPastTheWeek(zones: Zones, timezone: string, from: int) {
    forall minute :: 10080 <= minute - UtcMinute(from) <= 10170 ==> HasNotGoneBack(zones, timezone, minute)
  }

  lemma HalfHoursOn(from: int, look: int, halves: int)
    requires (look - from) % GRID_MS == 0 && from + HORIZON_MS <= look < from + HORIZON_MS + 90 * MINUTE_MS && 0 <= halves <= 333
    ensures var earlier := look - WEEK_MS + GRID_MS * halves;
            IsLookedAt(from, earlier) && UtcMinute(earlier) == UtcMinute(look) - 10080 + 30 * halves
    ensures 10080 <= UtcMinute(look) - UtcMinute(from) <= 10170
  {
    var k := (look - from) / GRID_MS;
    assert look - WEEK_MS + GRID_MS * halves - from == GRID_MS * (k - 336 + halves);
    assert look - WEEK_MS + GRID_MS * halves == look + MINUTE_MS * (30 * halves - 10080);
    MinutesOn(look, 30 * halves - 10080);
    MinutesOn(from, 10080);
    MinutesOn(from, 10170);
  }

  lemma MinutesOn(t: int, minutes: int)
    ensures UtcMinute(t + MINUTE_MS * minutes) == UtcMinute(t) + minutes
  {
  }

  /** A look past the week falls on a clock that one within it fell on. */
  lemma LookPastTheWeek(zones: Zones, timezone: string, from: int, look: int)
    requires SteadyPastTheWeek(zones, timezone, from)
    requires (look - from) % GRID_MS == 0 && from + HORIZON_MS <= look < from + HORIZON_MS + 90 * MINUTE_MS
    ensures LooksAtClock(zones, timezone, from, ClockAt(zones, timezone, look))
  {
    HalfHoursOn(from, look, 0);
    var m := UtcMinute(look);
    assert HasNotGoneBack(zones, timezone, m);
    var halves :| 0 <= halves <= 333 && zones(timezone, m) == zones(timezone, m - 10080 + 30 * halves) + 30 * halves;
    HalfHoursOn(from, look, halves);
    var earlier := look - WEEK_MS + GRID_MS * halves;
    assert Local(zones, timezone, look) - Local(zones, timezone, earlier) == 10080;
    SameClockIff(zones, timezone, look, earlier);
  }

  lemma FivePart(minute: int)
    requires minute % 5 == 0
    ensures minute % 30 == 5 * ((minute % 30) / 5) && 0 <= (minute % 30) / 5 < 6
  {
    assert minute == 5 * (minute / 5) && minute % 30 == 5 * (minute / 5 - 6 * (minute / 30));
  }

  lemma InMinute(minute: int, rest: int)
    requires 0 <= rest < MINUTE_MS
    ensures UtcMinute(MINUTE_MS * minute + rest) == minute
  {
  }

  /** Half-hours from `from`, spelled out. */
  lemma OnTheLooks(from: int, rest: int, part: int, halves: int, slots: int)
    requires from == MINUTE_MS * (30 * halves + part) + rest
    ensures (GRID_MS * slots + MINUTE_MS * part + rest - from) % GRID_MS == 0
  {
    assert GRID_MS * slots + MINUTE_MS * part + rest - from == GRID_MS * (slots - halves);
  }

  /** The moment of a slot that falls on the half-hours counted from `from`, to the minute. */
  lemma MomentInSlot(from: int, t: int) returns (sample: int, look: int)
    requires UtcMinute(from) % 5 == 0 && t % GRID_MS == 0
    ensures t <= sample < t + GRID_MS && (sample - t) % SAMPLE_MS == 0
    ensures UtcMinute(look) == UtcMinute(sample) && sample <= look < t + GRID_MS && (look - from) % GRID_MS == 0
  {
    var minute, rest := UtcMinute(from), from % MINUTE_MS;
    var part, halves, slots := minute % 30, minute / 30, t / GRID_MS;
    FivePart(minute);
    var fives := part / 5;
    sample := t + SAMPLE_MS * fives;
    look := sample + rest;
    WholeSamples(fives);
    OnTheLooks(from, rest, part, halves, slots);
    assert sample == MINUTE_MS * (30 * slots + part);
    InMinute(30 * slots + part, 0);
    InMinute(30 * slots + part, rest);
  }

  lemma SameMinuteSameClock(zones: Zones, timezone: string, t: int, u: int)
    requires UtcMinute(t) == UtcMinute(u)
    ensures ClockAt(zones, timezone, t) == ClockAt(zones, timezone, u)
  {
  }

  lemma LatestEndIsNear(from: int)
    ensures LatestEnd(from) < from + HORIZON_MS + 90 * MINUTE_MS
  {
  }

  /**
   * From a five-minute mark, to the minute, the gate sees whatever the search can offer, also past
   * its own week, in every zone that has not gone back by then. Any other change of offset is
   * harmless: one put right within the week, one forward, or one elsewhere.
   */
  lemma MarksSeeSteadyZones(zones: Zones, timezone: string, from: int)
    requires UtcMinute(from) % 5 == 0 && SteadyPastTheWeek(zones, timezone, from)
    ensures GateSees(zones, timezone, from)
  {
    forall t, minutes | SlotFits(from, t, minutes)
      ensures SlotCaught(zones, timezone, from, t, EndOf(t, minutes * MINUTE_MS))
    {
      var end := EndOf(t, minutes * MINUTE_MS);
      var sample, look := MomentInSlot(from, t);
      assert IsSampled(t, end, sample);
      SameMinuteSameClock(zones, timezone, look, sample);
      LatestEndIsNear(from);
      if look < from + HORIZON_MS {
        assert IsLookedAt(from, look);
      } else {
        LookPastTheWeek(zones, timezone, from, look);
      }
    }
  }

  /** Such is every zone whose offset is each week what it was the week before. */
  lemma WeeklyZonesAreSteady(zones: Zones, timezone: string, from: int)
    requires forall minute :: zones(timezone, minute) == zones(timezone, minute - 10080)
    ensures SteadyPastTheWeek(zones, timezone, from)
  {
    forall minute | 10080 <= minute - UtcMinute(from) <= 10170
      ensures HasNotGoneBack(zones, timezone, minute)
    {
      assert zones(timezone, minute) == zones(timezone, minute - 10080 + 30 * 0) + 30 * 0;
    }
  }

  // ---- where it does not see ----

  lemma LookMinute(from: int, look: int) returns (k: int)
    requires IsLookedAt(from, look)
    ensures 0 <= k < 336 && UtcMinute(look) == UtcMinute(from) + 30 * k
  {
    k := (look - from) / GRID_MS;
    assert look == from + MINUTE_MS * (30 * k);
    MinutesOn(from, 30 * k);
  }

  lemma SampleMinute(t: int, minutes: int, sample: int) returns (k: int)
    requires t % GRID_MS == 0 && minutes > 0 && t <= sample < t + minutes * MINUTE_MS
    ensures 0 <= k < minutes && UtcMinute(sample) == 30 * (t / GRID_MS) + k
    ensures IsSampled(t, t + minutes * MINUTE_MS, sample) ==> k % 5 == 0 || k == minutes - 1
  {
    var slots, offset := t / GRID_MS, sample - t;
    k := offset / MINUTE_MS;
    assert sample == MINUTE_MS * (30 * slots + k) + offset % MINUTE_MS;
    InMinute(30 * slots + k, offset % MINUTE_MS);
    if offset % SAMPLE_MS == 0 {
      assert offset == MINUTE_MS * (5 * (offset / SAMPLE_MS));
    }
  }

  lemma FivesApart(a: int, b: int)
    requires (a - b) % 10080 == 0
    ensures a % 5 == b % 5
  {
    assert a == b + 5 * (2016 * ((a - b) / 10080));
  }

  lemma SumOfFives(a: int, b: int)
    requires b % 5 == 0
    ensures (a + b) % 5 == a % 5
  {
    assert a + b == a + 5 * (b / 5);
  }

  /** The first slot with enough notice. */
  lemma FirstSlotFits(from: int) returns (t: int)
    ensures t == NextGridPoint(from + MIN_LEAD_MS) && SlotFits(from, t, 31)
  {
    t := NextGridPoint(from + MIN_LEAD_MS);
    NextGridPointIsNext(from + MIN_LEAD_MS);
  }

  lemma LookIsOffMark(zones: Zones, timezone: string, from: int, look: int)
    requires UtcMinute(from) % 5 != 0 && IsLookedAt(from, look) && zones(timezone, UtcMinute(look)) % 5 == 0
    ensures Local(zones, timezone, look) % 5 != 0
  {
    var l := LookMinute(from, look);
    SumOfFives(UtcMinute(look), zones(timezone, UtcMinute(look)));
    WholeFive(6 * l);
    SumOfFives(UtcMinute(from), 30 * l);
  }

  lemma SampleIsOnMark(zones: Zones, timezone: string, t: int, sample: int)
    requires t % GRID_MS == 0 && t <= sample < t + 31 * MINUTE_MS && IsSampled(t, t + 31 * MINUTE_MS, sample)
    requires zones(timezone, UtcMinute(sample)) % 5 == 0
    ensures Local(zones, timezone, sample) % 5 == 0
  {
    var k := SampleMinute(t, 31, sample);
    SumOfFives(UtcMinute(sample), zones(timezone, UtcMinute(sample)));
    WholeFive(6 * (t / GRID_MS));
    SumOfFives(k, 30 * (t / GRID_MS));
  }

  lemma OffMarkClocksDiffer(zones: Zones, timezone: string, from: int, t: int, sample: int, look: int)
    requires UtcMinute(from) % 5 != 0 && forall minute :: zones(timezone, minute) % 5 == 0
    requires t % GRID_MS == 0 && t <= sample < t + 31 * MINUTE_MS && IsSampled(t, t + 31 * MINUTE_MS, sample) && IsLookedAt(from, look)
    ensures ClockAt(zones, timezone, look) != ClockAt(zones, timezone, sample)
  {
    LookIsOffMark(zones, timezone, from, look);
    SampleIsOnMark(zones, timezone, t, sample);
    SameClockIff(zones, timezone, look, sample);
    if ClockAt(zones, timezone, look) == ClockAt(zones, timezone, sample) {
      FivesApart(Local(zones, timezone, look), Local(zones, timezone, sample));
    }
  }

  /**
   * Off a five-minute mark it does not, in any zone whose offsets are whole fives of minutes: a slot
   * of 31 minutes is asked about on such marks alone, and the gate never looks on one.
   */
  lemma OffMarksDoNotSee(zones: Zones, timezone: string, from: int)
    requires UtcMinute(from) % 5 != 0 && forall minute :: zones(timezone, minute) % 5 == 0
    ensures !GateSees(zones, timezone, from)
  {
    var t := FirstSlotFits(from);
    var end := EndOf(t, 31 * MINUTE_MS);
    forall sample, look | t <= sample < end && IsSampled(t, end, sample) && IsLookedAt(from, look)
      ensures ClockAt(zones, timezone, look) != ClockAt(zones, timezone, sample)
    {
      OffMarkClocksDiffer(zones, timezone, from, t, sample, look);
    }
    assert !SlotCaught(zones, timezone, from, t, end);
  }

  /** A zone an hour ahead of UTC until a minute, and at UTC from then on. */
  function GoesBack(change: int): Zones {
    (timezone: string, minute: int) => if minute < change then 60 else 0
  }

  lemma GridMark(halves: int)
    ensures UtcMinute(GRID_MS * halves) == 30 * halves
    ensures (GRID_MS * halves) / GRID_MS == halves && (GRID_MS * halves) % GRID_MS == 0
  {
  }

  lemma GridPointIsNotBefore(from: int)
    ensures from <= NextGridPoint(from)
  {
  }

  lemma WeekLater(from: int) returns (t: int)
    requires from % GRID_MS == 0
    ensures t == from + HORIZON_MS && SlotFits(from, t, 30) && 30 * (t / GRID_MS) == UtcMinute(from) + 10080
    ensures UtcMinute(from) % 5 == 0
  {
    var halves := from / GRID_MS;
    assert from == GRID_MS * halves;
    t := GRID_MS * (halves + 336);
    GridMark(halves);
    GridMark(halves + 336);
    GridPointIsNotBefore(from + MIN_LEAD_MS);
    WholeFive(6 * halves);
  }

  lemma WholeFive(fives: int)
    ensures (5 * fives) % 5 == 0
  {
  }

  lemma GoneBackClocksDiffer(timezone: string, from: int, change: int, t: int, sample: int, look: int)
    requires UtcMinute(from) < change <= UtcMinute(from) + 10020
    requires t % GRID_MS == 0 && 30 * (t / GRID_MS) == UtcMinute(from) + 10080
    requires t <= sample < t + 30 * MINUTE_MS && IsLookedAt(from, look)
    ensures ClockAt(GoesBack(change), timezone, look) != ClockAt(GoesBack(change), timezone, sample)
  {
    var k := SampleMinute(t, 30, sample);
    var l := LookMinute(from, look);
    SameClockIff(GoesBack(change), timezone, look, sample);
    NeverTheFirstHalfHour(k, l, UtcMinute(from), change);
  }

  /**
   * Nor on the mark where the clocks go back in the middle: the search reaches half an hour of the
   * first day's clock that the gate, an hour ahead then, has not looked at.
   */
  lemma ClocksGoneBackAreNotSeen(timezone: string, from: int, change: int)
    requires from % GRID_MS == 0 && UtcMinute(from) < change <= UtcMinute(from) + 10020
    ensures UtcMinute(from) % 5 == 0 && !GateSees(GoesBack(change), timezone, from)
  {
    var t := WeekLater(from);
    var end := EndOf(t, 30 * MINUTE_MS);
    forall sample, look | t <= sample < end && IsSampled(t, end, sample) && IsLookedAt(from, look)
      ensures ClockAt(GoesBack(change), timezone, look) != ClockAt(GoesBack(change), timezone, sample)
    {
      GoneBackClocksDiffer(timezone, from, change, t, sample, look);
    }
    assert !SlotCaught(GoesBack(change), timezone, from, t, end);
  }

  lemma NeverTheFirstHalfHour(k: int, l: int, first: int, change: int)
    requires 0 <= k < 30 && 0 <= l < 336 && first < change <= first + 10020
    ensures (first + 30 * l + (if first + 30 * l < change then 60 else 0) - (first + 10080 + k)) % 10080 != 0
  {
  }
}
