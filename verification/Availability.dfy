/**
 * Which times can be offered, and whether a named time can be taken
 * (packages/agents/src/availability.ts), against the diary.
 */
module Availability {
  import opened Prelude
  import opened Rota
  import Diary

  const GRID_MS: int := 30 * MINUTE_MS
  const MIN_LEAD_MS: int := 60 * MINUTE_MS

  datatype SlotOffer = SlotOffer(startsAt: int, endsAt: int, employeeId: Id, employeeName: string)

  datatype BusySpan = BusySpan(employeeId: Option<Id>, startsAt: int, endsAt: int)

  datatype Reason = Closed | FullyBooked | NoStaff | TooSoon

  datatype SlotDecision = Available(employeeId: Id, employeeName: string) | Unavailable(reason: Reason)

  datatype AvailabilityQuery = AvailabilityQuery(
    organizationId: Id,
    durationMinutes: real,
    from: int,
    days: int,
    limit: int,
    employeeId: Option<Id>)

  // ---- the reads ----

  /**
   * What listEmployees may answer: the business's active people, each once. Their order (by
   * name) is whatever the list says.
   */
  ghost predicate IsStaffList(db: Diary.Database, organization: Id, staff: seq<Employee>) {
    && (forall i :: 0 <= i < |staff| ==> staff[i].id in db.employees && db.employees[staff[i].id] == staff[i]
                                         && staff[i].organizationId == organization && staff[i].isActive)
    && (forall i, j :: 0 <= i < j < |staff| ==> staff[i].id != staff[j].id)
    && (forall e :: e in db.employees && db.employees[e].organizationId == organization && db.employees[e].isActive
          ==> db.employees[e] in staff)
  }

  /** listBookingsInWindow: confirmed bookings of one business that meet a window. */
  function BookingsInWindow(db: Diary.Database, organization: Id, from: int, to: int): set<BusySpan> {
    set k | k in db.bookings && db.bookings[k].organizationId == organization && db.bookings[k].status == Diary.Confirmed
            && db.bookings[k].startsAt < to && db.bookings[k].endsAt > from
      :: BusySpan(db.bookings[k].employeeId, db.bookings[k].startsAt, db.bookings[k].endsAt)
  }

  predicate BusyIn(spans: set<BusySpan>, employee: Id, start: int, end: int) {
    exists b :: b in spans && b.employeeId == Some(employee) && Diary.Overlap(b.startsAt, b.endsAt, start, end)
  }

  /** Free against the whole diary: every confirmed booking, whichever business it is filed under. */
  predicate Free(db: Diary.Database, employee: Id, start: int, end: int) {
    !Diary.Busy(db.bookings, employee, start, end, None)
  }

  /** Every booking with somebody on it is with a member of its own business's staff. */
  ghost predicate StaffAreOwn(db: Diary.Database) {
    forall k :: k in db.bookings ==> Diary.OwnStaff(db.employees, db.bookings[k])
  }

  lemma DiaryStaffAreOwn(db: Diary.Database, events: seq<Diary.Event>)
    requires Diary.Sound(db) && Diary.CanRun(Diary.Opened(db), events)
    ensures StaffAreOwn(Diary.Run(Diary.Opened(db), events).db)
  {
    Diary.DiaryIsAlwaysSound(db, events);
  }

  /**
   * The filtered read hides nothing: one person's bookings are all filed under their own
   * business, and a slot inside the window can only meet bookings that meet the window.
   */
  lemma WindowedReadHidesNoClash(db: Diary.Database, employee: Id, from: int, to: int, start: int, end: int)
    requires StaffAreOwn(db) && employee in db.employees
    requires from <= start && end <= to
    ensures BusyIn(BookingsInWindow(db, db.employees[employee].organizationId, from, to), employee, start, end)
       <==> !Free(db, employee, start, end)
  {
    var organization := db.employees[employee].organizationId;
    var spans := BookingsInWindow(db, organization, from, to);
    if !Free(db, employee, start, end) {
      var k :| k in db.bookings && Diary.Holds(db.bookings[k], employee)
               && Diary.Overlap(db.bookings[k].startsAt, db.bookings[k].endsAt, start, end);
      assert Diary.OwnStaff(db.employees, db.bookings[k]);
      var b := db.bookings[k];
      assert BusySpan(b.employeeId, b.startsAt, b.endsAt) in spans;
    }
  }

  // ---- the search ----

  /** Math.ceil(from / step) * step. */
  function NextGridPoint(from: int): int {
    -((-from) / GRID_MS) * GRID_MS
  }

  lemma NextGridPointIsNext(from: int)
    ensures NextGridPoint(from) % GRID_MS == 0 && from <= NextGridPoint(from)
    ensures forall t :: t % GRID_MS == 0 && from <= t ==> NextGridPoint(from) <= t
  {
  }

  function Max(a: int, b: int): int {
    if a < b then b else a
  }

  /** Math.round rounds halves up. */
  function DurationMs(minutes: real): int {
    Max(5, (minutes + 0.5).Floor) * MINUTE_MS
  }

  function SearchFrom(query: AvailabilityQuery): int {
    NextGridPoint(query.from + MIN_LEAD_MS)
  }

  function SearchTo(query: AvailabilityQuery): int {
    SearchFrom(query) + query.days * DAY_MS
  }

  predicate IsCandidate(wanted: Option<Id>, employee: Employee) {
    employee.isActive && (wanted.None? || employee.id == wanted.value)
  }

  function Candidates(staff: seq<Employee>, wanted: Option<Id>): seq<Employee> {
    Filter(staff, e => IsCandidate(wanted, e))
  }

  /** Working throughout, and free in the whole diary. */
  predicate CanTake(zones: Zones, db: Diary.Database, employee: Employee, start: int, end: int) {
    IsScheduledThroughout(zones, employee, start, end) && Free(db, employee.id, start, end)
  }

  function Takes(zones: Zones, db: Diary.Database, start: int, end: int): Employee -> bool {
    (e: Employee) => CanTake(zones, db, e, start, end)
  }

  /** Who takes a slot: the first candidate who can. */
  function Taker(zones: Zones, db: Diary.Database, candidates: seq<Employee>, start: int, end: int): Option<Employee> {
    FindFirst(candidates, Takes(zones, db, start, end))
  }

  /** When a slot that starts then is over. */
  function EndOf(start: int, durationMs: int): int {
    start + durationMs
  }

  /** When a search may offer: not before `earliest`, slots over by `latest`, at most `limit` of them. */
  datatype Horizon = Horizon(earliest: int, latest: int, durationMs: int, limit: int)

  /** A half-hour time with enough notice, its whole slot inside the horizon, that somebody can take. */
  predicate Offerable(who: int -> Option<Employee>, horizon: Horizon, t: int) {
    && t % GRID_MS == 0
    && horizon.earliest <= t && t + horizon.durationMs <= horizon.latest
    && who(t).Some?
  }

  predicate IsOfferFor(who: int -> Option<Employee>, horizon: Horizon, offer: SlotOffer) {
    Offerable(who, horizon, offer.startsAt) && IsNamed(who, horizon, offer)
  }

  /** What an offer says of its time. */
  predicate IsNamed(who: int -> Option<Employee>, horizon: Horizon, offer: SlotOffer) {
    && offer.endsAt == EndOf(offer.startsAt, horizon.durationMs) && who(offer.startsAt).Some?
    && offer.employeeId == who(offer.startsAt).value.id && offer.employeeName == who(offer.startsAt).value.fullName
  }

  ghost predicate Increasing(offers: seq<SlotOffer>) {
    forall i, j :: 0 <= i < j < |offers| ==> offers[i].startsAt < offers[j].startsAt
  }

  predicate Offers(offers: seq<SlotOffer>, t: int) {
    exists i :: 0 <= i < |offers| && offers[i].startsAt == t
  }

  /** The first `limit` offerable times (one, when `limit` is less), in order, and no others. */
  ghost predicate AreFirstOffers(who: int -> Option<Employee>, horizon: Horizon, offers: seq<SlotOffer>) {
    && Increasing(offers)
    && |offers| <= Max(1, horizon.limit)
    && (forall i :: 0 <= i < |offers| ==> IsOfferFor(who, horizon, offers[i]))
    && (forall t :: Offerable(who, horizon, t)
          && (|offers| == Max(1, horizon.limit) ==> t < offers[|offers| - 1].startsAt)
          ==> Offers(offers, t))
  }

  function HorizonOf(query: AvailabilityQuery): Horizon {
    Horizon(query.from + MIN_LEAD_MS, SearchTo(query), DurationMs(query.durationMinutes), query.limit)
  }

  /** Who takes each time, for one query on one diary. */
  function TakerAt(zones: Zones, db: Diary.Database, staff: seq<Employee>, query: AvailabilityQuery): int -> Option<Employee> {
    t => Taker(zones, db, Candidates(staff, query.employeeId), t, EndOf(t, DurationMs(query.durationMinutes)))
  }

  function Throughout(zones: Zones, start: int, end: int): Employee -> bool {
    (e: Employee) => IsScheduledThroughout(zones, e, start, end)
  }

  function NotBusy(spans: set<BusySpan>, start: int, end: int): Employee -> bool {
    (e: Employee) => !BusyIn(spans, e.id, start, end)
  }

  function WorkingAndNotBusy(zones: Zones, spans: set<BusySpan>, start: int, end: int): Employee -> bool {
    (e: Employee) => IsScheduledThroughout(zones, e, start, end) && !BusyIn(spans, e.id, start, end)
  }

  /** The source's `find`: the first candidate who is working and not busy in what was read. */
  function FirstFree(zones: Zones, spans: set<BusySpan>, candidates: seq<Employee>, start: int, end: int): Option<Employee> {
    FindFirst(candidates, WorkingAndNotBusy(zones, spans, start, end))
  }

  /** Working and not busy in what was read is working and free. */
  lemma ReadDecidesAsTheDiaryDoes(
    zones: Zones, db: Diary.Database, organization: Id, candidates: seq<Employee>, from: int, to: int, start: int, end: int)
    requires StaffAreOwn(db) && from <= start && end <= to
    requires OfBusiness(db, organization, candidates)
    ensures FirstFree(zones, BookingsInWindow(db, organization, from, to), candidates, start, end)
         == Taker(zones, db, candidates, start, end)
  {
    var spans := BookingsInWindow(db, organization, from, to);
    forall i | 0 <= i < |candidates|
      ensures WorkingAndNotBusy(zones, spans, start, end)(candidates[i]) <==> Takes(zones, db, start, end)(candidates[i])
    {
      WindowedReadHidesNoClash(db, candidates[i].id, from, to, start, end);
    }
    FindAgrees(candidates, WorkingAndNotBusy(zones, spans, start, end), Takes(zones, db, start, end));
  }

  /** Everybody on the list is a record of that business. */
  ghost predicate OfBusiness(db: Diary.Database, organization: Id, people: seq<Employee>) {
    forall i :: 0 <= i < |people| ==> people[i].id in db.employees && db.employees[people[i].id].organizationId == organization
  }

  lemma CandidatesAreListed(db: Diary.Database, organization: Id, staff: seq<Employee>, wanted: Option<Id>)
    requires IsStaffList(db, organization, staff)
    ensures OfBusiness(db, organization, Candidates(staff, wanted))
  {
    var candidates := Candidates(staff, wanted);
    forall i | 0 <= i < |candidates|
      ensures candidates[i].id in db.employees && db.employees[candidates[i].id].organizationId == organization
    {
      assert candidates[i] in staff;
    }
  }

  /** How far the search has got: every offerable time before `t` is offered, and nothing else. */
  ghost predicate SearchedTo(who: int -> Option<Employee>, horizon: Horizon, offers: seq<SlotOffer>, t: int) {
    && t % GRID_MS == 0 && horizon.earliest <= t
    && Increasing(offers) && |offers| < Max(1, horizon.limit)
    && (forall i :: 0 <= i < |offers| ==> offers[i].startsAt < t && IsOfferFor(who, horizon, offers[i]))
    && (forall u :: u < t && Offerable(who, horizon, u) ==> Offers(offers, u))
  }

  lemma SearchBegins(who: int -> Option<Employee>, horizon: Horizon)
    ensures SearchedTo(who, horizon, [], NextGridPoint(horizon.earliest))
  {
    NextGridPointIsNext(horizon.earliest);
  }

  lemma SearchPasses(who: int -> Option<Employee>, horizon: Horizon, offers: seq<SlotOffer>, t: int)
    requires SearchedTo(who, horizon, offers, t) && who(t).None?
    ensures SearchedTo(who, horizon, offers, t + GRID_MS)
  {
    assert forall u :: u % GRID_MS == 0 && t <= u < t + GRID_MS ==> u == t;
  }

  lemma SearchOffers(who: int -> Option<Employee>, horizon: Horizon, offers: seq<SlotOffer>, offer: SlotOffer)
    requires SearchedTo(who, horizon, offers, offer.startsAt) && IsOfferFor(who, horizon, offer)
    ensures if |offers| + 1 >= horizon.limit then AreFirstOffers(who, horizon, offers + [offer])
            else SearchedTo(who, horizon, offers + [offer], offer.startsAt + GRID_MS)
  {
    var t, offers' := offer.startsAt, offers + [offer];
    assert offers'[|offers|] == offer && forall i :: 0 <= i < |offers| ==> offers'[i] == offers[i];
    assert forall u :: u % GRID_MS == 0 && t <= u < t + GRID_MS ==> u == t;
    forall u | u < t + GRID_MS && Offerable(who, horizon, u)
      ensures Offers(offers', u)
    {
      if u < t {
        var i :| 0 <= i < |offers| && offers[i].startsAt == u;
        assert offers'[i].startsAt == u;
      }
    }
  }

  /** What one turn of the loop does with the person it found, or did not find. */
  lemma SearchSteps(who: int -> Option<Employee>, horizon: Horizon, offers: seq<SlotOffer>, t: int, found: Option<Employee>)
    requires SearchedTo(who, horizon, offers, t) && t + horizon.durationMs <= horizon.latest
    requires found == who(t)
    ensures found.None? ==> SearchedTo(who, horizon, offers, t + GRID_MS)
    ensures found.Some? ==>
              var offer := SlotOffer(t, EndOf(t, horizon.durationMs), found.value.id, found.value.fullName);
              if |offers| + 1 >= horizon.limit then AreFirstOffers(who, horizon, offers + [offer])
              else SearchedTo(who, horizon, offers + [offer], t + GRID_MS)
  {
    if found.None? {
      SearchPasses(who, horizon, offers, t);
    } else {
      SearchOffers(who, horizon, offers, SlotOffer(t, EndOf(t, horizon.durationMs), found.value.id, found.value.fullName));
    }
  }

  lemma SearchEnds(who: int -> Option<Employee>, horizon: Horizon, offers: seq<SlotOffer>, t: int)
    requires SearchedTo(who, horizon, offers, t) && t + horizon.durationMs > horizon.latest
    ensures AreFirstOffers(who, horizon, offers)
  {
  }

  ghost predicate NamesTaker(who: int -> Option<Employee>, zones: Zones, db: Diary.Database, candidates: seq<Employee>,
                             durationMs: int, t: int) {
    who(t) == Taker(zones, db, candidates, t, EndOf(t, durationMs))
  }

  /** `who` names the taker of each time, for one query on one diary. */
  ghost predicate NamesTakers(who: int -> Option<Employee>, zones: Zones, db: Diary.Database, candidates: seq<Employee>, durationMs: int) {
    forall t :: NamesTaker(who, zones, db, candidates, durationMs, t)
  }

  lemma TakerAtNamesTakers(zones: Zones, db: Diary.Database, staff: seq<Employee>, query: AvailabilityQuery)
    ensures NamesTakers(TakerAt(zones, db, staff, query), zones, db, Candidates(staff, query.employeeId), DurationMs(query.durationMinutes))
  {
    forall t
      ensures NamesTaker(TakerAt(zones, db, staff, query), zones, db, Candidates(staff, query.employeeId), DurationMs(query.durationMinutes), t)
    {
      TakerAtIs(zones, db, staff, query, t);
    }
  }

  lemma TakerAtIs(zones: Zones, db: Diary.Database, staff: seq<Employee>, query: AvailabilityQuery, t: int)
    ensures TakerAt(zones, db, staff, query)(t)
         == Taker(zones, db, Candidates(staff, query.employeeId), t, EndOf(t, DurationMs(query.durationMinutes)))
  {
  }

  lemma NobodyToOffer(who: int -> Option<Employee>, zones: Zones, db: Diary.Database, horizon: Horizon)
    requires NamesTakers(who, zones, db, [], horizon.durationMs)
    ensures AreFirstOffers(who, horizon, [])
  {
    forall t
      ensures who(t).None?
    {
      assert NamesTaker(who, zones, db, [], horizon.durationMs, t);
    }
  }

  /** The inner `find`. What was read decides as the whole diary would. */
  method FindFree(ghost who: int -> Option<Employee>, zones: Zones, ghost db: Diary.Database, ghost organization: Id,
                  candidates: seq<Employee>, busy: set<BusySpan>, ghost from: int, ghost to: int, ghost durationMs: int, t: int, end: int)
    returns (found: Option<Employee>)
    requires StaffAreOwn(db) && OfBusiness(db, organization, candidates)
    requires NamesTakers(who, zones, db, candidates, durationMs) && end == EndOf(t, durationMs)
    requires busy == BookingsInWindow(db, organization, from, to) && from <= t && end <= to
    ensures found == who(t)
  {
    found := FirstFree(zones, busy, candidates, t, end);
    assert NamesTaker(who, zones, db, candidates, durationMs, t);
    ReadDecidesAsTheDiaryDoes(zones, db, organization, candidates, from, to, t, end);
  }

  /** The loop, once the candidates are known. */
  method SearchGrid(ghost who: int -> Option<Employee>, zones: Zones, db: Diary.Database, organization: Id, candidates: seq<Employee>,
                    horizon: Horizon)
    returns (offers: seq<SlotOffer>)
    requires StaffAreOwn(db) && OfBusiness(db, organization, candidates)
    requires NamesTakers(who, zones, db, candidates, horizon.durationMs)
    ensures AreFirstOffers(who, horizon, offers)
  {
    var searchFrom := NextGridPoint(horizon.earliest);
    var busy := BookingsInWindow(db, organization, searchFrom, horizon.latest);
    offers := [];
    var t := searchFrom;
    SearchBegins(who, horizon);
    while t + horizon.durationMs <= horizon.latest
      invariant searchFrom <= t
      invariant SearchedTo(who, horizon, offers, t)
      decreases horizon.latest - horizon.durationMs - t
    {
      var end := EndOf(t, horizon.durationMs);
      var free := FindFree(who, zones, db, organization, candidates, busy, searchFrom, horizon.latest, horizon.durationMs, t, end);
      SearchSteps(who, horizon, offers, t, free);
      if free.Some? {
        offers := offers + [SlotOffer(t, end, free.value.id, free.value.fullName)];
        if |offers| >= horizon.limit {
          return;
        }
      }
      t := t + GRID_MS;
    }
    SearchEnds(who, horizon, offers, t);
  }

  method FindAvailableSlots(zones: Zones, db: Diary.Database, staff: seq<Employee>, query: AvailabilityQuery)
    returns (offers: seq<SlotOffer>)
    requires StaffAreOwn(db) && IsStaffList(db, query.organizationId, staff)
    ensures AreFirstOffers(TakerAt(zones, db, staff, query), HorizonOf(query), offers)
  {
    var candidates := Candidates(staff, query.employeeId);
    TakerAtNamesTakers(zones, db, staff, query);
    if |candidates| == 0 {
      NobodyToOffer(TakerAt(zones, db, staff, query), zones, db, HorizonOf(query));
      return [];
    }
    CandidatesAreListed(db, query.organizationId, staff, query.employeeId);
    offers := SearchGrid(TakerAt(zones, db, staff, query), zones, db, query.organizationId, candidates, HorizonOf(query));
  }

  predicate Agree(a: seq<SlotOffer>, b: seq<SlotOffer>, k: nat) {
    k <= |a| && k <= |b| && forall i :: 0 <= i < k ==> a[i] == b[i]
  }

  lemma NotEarlier(who: int -> Option<Employee>, horizon: Horizon, a: seq<SlotOffer>, b: seq<SlotOffer>, k: nat)
    requires AreFirstOffers(who, horizon, a) && AreFirstOffers(who, horizon, b)
    requires k < |a| && k < |b| && Agree(a, b, k)
    ensures b[k].startsAt <= a[k].startsAt
  {
    assert b[k].startsAt <= b[|b| - 1].startsAt;
  }

  lemma OneOfferATime(who: int -> Option<Employee>, horizon: Horizon, a: SlotOffer, b: SlotOffer)
    requires IsOfferFor(who, horizon, a) && IsOfferFor(who, horizon, b) && a.startsAt == b.startsAt
    ensures a == b
  {
  }

  lemma SamePrefix(who: int -> Option<Employee>, horizon: Horizon, a: seq<SlotOffer>, b: seq<SlotOffer>, k: nat)
    requires AreFirstOffers(who, horizon, a) && AreFirstOffers(who, horizon, b)
    requires k <= |a| && k <= |b|
    ensures Agree(a, b, k)
  {
    for m := 0 to k
      invariant Agree(a, b, m)
    {
      SameNext(who, horizon, a, b, m);
      AgreeFurther(a, b, m);
    }
  }

  lemma AgreeFurther(a: seq<SlotOffer>, b: seq<SlotOffer>, k: nat)
    requires Agree(a, b, k) && k < |a| && k < |b| && a[k] == b[k]
    ensures Agree(a, b, k + 1)
  {
  }

  lemma SameNext(who: int -> Option<Employee>, horizon: Horizon, a: seq<SlotOffer>, b: seq<SlotOffer>, k: nat)
    requires AreFirstOffers(who, horizon, a) && AreFirstOffers(who, horizon, b)
    requires k < |a| && k < |b| && Agree(a, b, k)
    ensures a[k] == b[k]
  {
    NotEarlier(who, horizon, a, b, k);
    NotEarlier(who, horizon, b, a, k);
    OneOfferATime(who, horizon, a[k], b[k]);
  }

  lemma NotLonger(who: int -> Option<Employee>, horizon: Horizon, a: seq<SlotOffer>, b: seq<SlotOffer>)
    requires AreFirstOffers(who, horizon, a) && AreFirstOffers(who, horizon, b)
    ensures |b| <= |a|
  {
    if |a| < |b| {
      assert IsOfferFor(who, horizon, b[|a|]);
      var i :| 0 <= i < |a| && a[i].startsAt == b[|a|].startsAt;
      SamePrefix(who, horizon, a, b, |a|);
    }
  }

  /** The contract of the search leaves nothing open: only one list of offers meets it. */
  lemma OffersAreDetermined(who: int -> Option<Employee>, horizon: Horizon, a: seq<SlotOffer>, b: seq<SlotOffer>)
    requires AreFirstOffers(who, horizon, a) && AreFirstOffers(who, horizon, b)
    ensures a == b
  {
    NotLonger(who, horizon, a, b);
    NotLonger(who, horizon, b, a);
    SamePrefix(who, horizon, a, b, |a|);
  }

  // ---- a named time ----

  function ResolveSlot(zones: Zones, db: Diary.Database, organization: Id, staff: seq<Employee>,
                       startsAt: int, endsAt: int, from: int, wanted: Option<Id>): SlotDecision {
    if startsAt < from then Unavailable(TooSoon)
    else
      var candidates := Candidates(staff, wanted);
      if candidates == [] then Unavailable(NoStaff)
      else
        var working := Filter(candidates, Throughout(zones, startsAt, endsAt));
        if working == [] then Unavailable(Closed)
        else
          var busy := BookingsInWindow(db, organization, startsAt, endsAt);
          match FindFirst(working, NotBusy(busy, startsAt, endsAt))
          case None => Unavailable(FullyBooked)
          case Some(e) => Available(e.id, e.fullName)
  }

  /** Somebody on the list works throughout. */
  predicate SomebodyWorks(zones: Zones, candidates: seq<Employee>, startsAt: int, endsAt: int) {
    exists i :: 0 <= i < |candidates| && IsScheduledThroughout(zones, candidates[i], startsAt, endsAt)
  }

  lemma NobodyWorking(zones: Zones, candidates: seq<Employee>, startsAt: int, endsAt: int)
    ensures Filter(candidates, Throughout(zones, startsAt, endsAt)) == [] <==> !SomebodyWorks(zones, candidates, startsAt, endsAt)
  {
    var p := Throughout(zones, startsAt, endsAt);
    var working := Filter(candidates, p);
    if working != [] {
      assert working[0] in working;
      var i :| 0 <= i < |candidates| && candidates[i] == working[0];
      assert p(candidates[i]);
    }
    if SomebodyWorks(zones, candidates, startsAt, endsAt) {
      var i :| 0 <= i < |candidates| && IsScheduledThroughout(zones, candidates[i], startsAt, endsAt);
      assert p(candidates[i]);
      assert candidates[i] in working;
    }
  }

  lemma FirstWorkingAndFree(zones: Zones, db: Diary.Database, organization: Id, candidates: seq<Employee>, startsAt: int, endsAt: int)
    requires StaffAreOwn(db)
    requires OfBusiness(db, organization, candidates)
    ensures FindFirst(Filter(candidates, Throughout(zones, startsAt, endsAt)),
                      NotBusy(BookingsInWindow(db, organization, startsAt, endsAt), startsAt, endsAt))
         == Taker(zones, db, candidates, startsAt, endsAt)
  {
    var p := Throughout(zones, startsAt, endsAt);
    var q := NotBusy(BookingsInWindow(db, organization, startsAt, endsAt), startsAt, endsAt);
    FindInFilter(candidates, p, q, WorkingAndNotBusy(zones, BookingsInWindow(db, organization, startsAt, endsAt), startsAt, endsAt));
    ReadDecidesAsTheDiaryDoes(zones, db, organization, candidates, startsAt, endsAt, startsAt, endsAt);
  }

  /**
   * What the four answers mean, in terms of the whole diary: the first candidate who is working
   * throughout and free takes it; otherwise the reason is the first of "already past", "no such
   * staff", "nobody works then" and "everybody who works then is booked" that is true.
   */
  lemma ResolveSlotDecides(zones: Zones, db: Diary.Database, organization: Id, staff: seq<Employee>,
                           startsAt: int, endsAt: int, from: int, wanted: Option<Id>)
    requires StaffAreOwn(db) && IsStaffList(db, organization, staff)
    ensures ResolveSlot(zones, db, organization, staff, startsAt, endsAt, from, wanted)
         == if startsAt < from then Unavailable(TooSoon)
            else if Candidates(staff, wanted) == [] then Unavailable(NoStaff)
            else if !SomebodyWorks(zones, Candidates(staff, wanted), startsAt, endsAt) then Unavailable(Closed)
            else match Taker(zones, db, Candidates(staff, wanted), startsAt, endsAt)
                 case None => Unavailable(FullyBooked)
                 case Some(e) => Available(e.id, e.fullName)
  {
    NobodyWorking(zones, Candidates(staff, wanted), startsAt, endsAt);
    CandidatesAreListed(db, organization, staff, wanted);
    FirstWorkingAndFree(zones, db, organization, Candidates(staff, wanted), startsAt, endsAt);
  }

  // ---- what the answers mean, by the tables ----

  ghost predicate KeyedById(db: Diary.Database) {
    forall e :: e in db.employees ==> db.employees[e].id == e
  }

  /** An active person of the business, and the one asked for if one is. */
  predicate IsAsked(db: Diary.Database, organization: Id, wanted: Option<Id>, e: Id) {
    Diary.IsStaffOf(db.employees, e, organization) && (wanted == None || wanted == Some(e))
  }

  /** And at work throughout. */
  predicate AsksAndWorks(zones: Zones, db: Diary.Database, organization: Id, wanted: Option<Id>, e: Id, start: int, end: int) {
    IsAsked(db, organization, wanted, e) && IsScheduledThroughout(zones, db.employees[e], start, end)
  }

  /** And with no confirmed appointment that meets the time, whichever business it is filed under. */
  ghost predicate MayTake(zones: Zones, db: Diary.Database, organization: Id, wanted: Option<Id>, e: Id, start: int, end: int) {
    AsksAndWorks(zones, db, organization, wanted, e, start, end) && !Diary.IsTaken(db.bookings, Some(e), start, end, None)
  }

  lemma CandidatesAre(db: Diary.Database, organization: Id, staff: seq<Employee>, wanted: Option<Id>, x: Employee)
    requires KeyedById(db) && IsStaffList(db, organization, staff)
    ensures x in Candidates(staff, wanted) <==> IsAsked(db, organization, wanted, x.id) && x == db.employees[x.id]
  {
    if IsAsked(db, organization, wanted, x.id) && x == db.employees[x.id] {
      assert x in staff;
    }
  }

  lemma AskedIsCandidate(db: Diary.Database, organization: Id, staff: seq<Employee>, wanted: Option<Id>, e: Id)
    requires KeyedById(db) && IsStaffList(db, organization, staff) && IsAsked(db, organization, wanted, e)
    ensures db.employees[e] in Candidates(staff, wanted)
  {
    CandidatesAre(db, organization, staff, wanted, db.employees[e]);
  }

  lemma TakesIsMayTake(zones: Zones, db: Diary.Database, organization: Id, staff: seq<Employee>, wanted: Option<Id>,
                       x: Employee, start: int, end: int)
    requires KeyedById(db) && IsStaffList(db, organization, staff) && x in Candidates(staff, wanted)
    ensures CanTake(zones, db, x, start, end) <==> MayTake(zones, db, organization, wanted, x.id, start, end)
  {
    CandidatesAre(db, organization, staff, wanted, x);
    Diary.BusyIsTaken(db.bookings, x.id, start, end, None);
  }

  /** The taker is the first on the list who may take the time, and there is one when anybody may. */
  lemma TakerMeans(zones: Zones, db: Diary.Database, organization: Id, staff: seq<Employee>, wanted: Option<Id>, start: int, end: int)
    requires KeyedById(db) && IsStaffList(db, organization, staff)
    ensures var taker := Taker(zones, db, Candidates(staff, wanted), start, end);
            && (taker.Some? <==> exists e :: MayTake(zones, db, organization, wanted, e, start, end))
            && (taker.Some? ==> MayTake(zones, db, organization, wanted, taker.value.id, start, end)
                                && taker.value == db.employees[taker.value.id])
  {
    var candidates := Candidates(staff, wanted);
    var taker := Taker(zones, db, candidates, start, end);
    if taker.Some? {
      var i :| 0 <= i < |candidates| && taker == Some(candidates[i]) && Takes(zones, db, start, end)(candidates[i]);
      assert candidates[i] in candidates;
      CandidatesAre(db, organization, staff, wanted, candidates[i]);
      TakesIsMayTake(zones, db, organization, staff, wanted, candidates[i], start, end);
    }
    forall e | MayTake(zones, db, organization, wanted, e, start, end)
      ensures taker.Some?
    {
      SomebodyTakes(zones, db, organization, staff, wanted, start, end, e);
    }
  }

  lemma SomebodyTakes(zones: Zones, db: Diary.Database, organization: Id, staff: seq<Employee>, wanted: Option<Id>,
                      start: int, end: int, e: Id)
    requires KeyedById(db) && IsStaffList(db, organization, staff) && MayTake(zones, db, organization, wanted, e, start, end)
    ensures Taker(zones, db, Candidates(staff, wanted), start, end).Some?
  {
    var candidates := Candidates(staff, wanted);
    AskedIsCandidate(db, organization, staff, wanted, e);
    var i :| 0 <= i < |candidates| && candidates[i] == db.employees[e];
    TakesIsMayTake(zones, db, organization, staff, wanted, candidates[i], start, end);
    assert Takes(zones, db, start, end)(candidates[i]);
  }

  lemma NobodyAsked(db: Diary.Database, organization: Id, staff: seq<Employee>, wanted: Option<Id>)
    requires KeyedById(db) && IsStaffList(db, organization, staff)
    ensures Candidates(staff, wanted) == [] <==> forall e :: !IsAsked(db, organization, wanted, e)
  {
    var candidates := Candidates(staff, wanted);
    if candidates != [] {
      assert candidates[0] in candidates;
      CandidatesAre(db, organization, staff, wanted, candidates[0]);
    }
    forall e | IsAsked(db, organization, wanted, e)
      ensures candidates != []
    {
      AskedIsCandidate(db, organization, staff, wanted, e);
    }
  }

  lemma NobodyAtWork(zones: Zones, db: Diary.Database, organization: Id, staff: seq<Employee>, wanted: Option<Id>, start: int, end: int)
    requires KeyedById(db) && IsStaffList(db, organization, staff)
    ensures SomebodyWorks(zones, Candidates(staff, wanted), start, end)
       <==> exists e :: AsksAndWorks(zones, db, organization, wanted, e, start, end)
  {
    var candidates := Candidates(staff, wanted);
    if SomebodyWorks(zones, candidates, start, end) {
      var i :| 0 <= i < |candidates| && IsScheduledThroughout(zones, candidates[i], start, end);
      assert candidates[i] in candidates;
      CandidatesAre(db, organization, staff, wanted, candidates[i]);
      assert AsksAndWorks(zones, db, organization, wanted, candidates[i].id, start, end);
    }
    if e :| AsksAndWorks(zones, db, organization, wanted, e, start, end) {
      AskedIsCandidate(db, organization, staff, wanted, e);
      var i :| 0 <= i < |candidates| && candidates[i] == db.employees[e];
    }
  }

  /**
   * The four answers by the tables alone. Nobody but the person asked for is ever named; whoever is
   * named works for the business, is at work throughout and is free.
   */
  lemma ResolveSlotMeans(zones: Zones, db: Diary.Database, organization: Id, staff: seq<Employee>,
                         startsAt: int, endsAt: int, from: int, wanted: Option<Id>)
    requires StaffAreOwn(db) && KeyedById(db) && IsStaffList(db, organization, staff)
    ensures var r := ResolveSlot(zones, db, organization, staff, startsAt, endsAt, from, wanted);
            && (r == Unavailable(TooSoon) <==> startsAt < from)
            && (r == Unavailable(NoStaff) <==> startsAt >= from && forall e :: !IsAsked(db, organization, wanted, e))
            && (r == Unavailable(Closed) <==>
                  && startsAt >= from && (exists e :: IsAsked(db, organization, wanted, e))
                  && forall e :: !AsksAndWorks(zones, db, organization, wanted, e, startsAt, endsAt))
            && (r == Unavailable(FullyBooked) <==>
                  && startsAt >= from && (exists e :: AsksAndWorks(zones, db, organization, wanted, e, startsAt, endsAt))
                  && forall e :: !MayTake(zones, db, organization, wanted, e, startsAt, endsAt))
            && (r.Available? <==> startsAt >= from && exists e :: MayTake(zones, db, organization, wanted, e, startsAt, endsAt))
            && (r.Available? ==> MayTake(zones, db, organization, wanted, r.employeeId, startsAt, endsAt)
                                 && r.employeeName == db.employees[r.employeeId].fullName)
  {
    ResolveSlotDecides(zones, db, organization, staff, startsAt, endsAt, from, wanted);
    NobodyAsked(db, organization, staff, wanted);
    NobodyAtWork(zones, db, organization, staff, wanted, startsAt, endsAt);
    TakerMeans(zones, db, organization, staff, wanted, startsAt, endsAt);
    forall e | MayTake(zones, db, organization, wanted, e, startsAt, endsAt)
      ensures AsksAndWorks(zones, db, organization, wanted, e, startsAt, endsAt)
    {
    }
    forall e | AsksAndWorks(zones, db, organization, wanted, e, startsAt, endsAt)
      ensures IsAsked(db, organization, wanted, e)
    {
    }
  }

  /** Somebody may take the whole of the slot that starts then. */
  ghost predicate SlotMayBeTaken(zones: Zones, db: Diary.Database, organization: Id, wanted: Option<Id>, t: int, end: int) {
    exists e :: MayTake(zones, db, organization, wanted, e, t, end)
  }

  /** An offer says who may take its time: somebody asked for, at work throughout and free. */
  ghost predicate IsTrueOffer(zones: Zones, db: Diary.Database, query: AvailabilityQuery, offer: SlotOffer) {
    && MayTake(zones, db, query.organizationId, query.employeeId, offer.employeeId, offer.startsAt, offer.endsAt)
    && offer.employeeName == db.employees[offer.employeeId].fullName
  }

  lemma SearchMeans(query: AvailabilityQuery, first: int, minutes: int)
    requires first % 1_800_000 == 0 && query.from + 3_600_000 <= first < query.from + 5_400_000
    requires minutes as real <= query.durationMinutes + 0.5 < (minutes + 1) as real
    ensures HorizonOf(query).durationMs == 60_000 * if minutes < 5 then 5 else minutes
    ensures HorizonOf(query).latest == first + 86_400_000 * query.days
  {
    NextGridPointIsNext(query.from + MIN_LEAD_MS);
    OnlyOneGridPoint(NextGridPoint(query.from + MIN_LEAD_MS), first);
  }

  lemma NotBeforeTheFirst(from: int, first: int, t: int)
    requires first % GRID_MS == 0 && from <= first < from + GRID_MS && t % GRID_MS == 0
    ensures from <= t <==> first <= t
  {
    if from <= t < first {
      OnlyOneGridPoint(t, first);
    }
  }

  lemma OnlyOneGridPoint(a: int, b: int)
    requires a % GRID_MS == 0 && b % GRID_MS == 0 && -GRID_MS < a - b < GRID_MS
    ensures a == b
  {
  }

  lemma OfferableMeans(zones: Zones, db: Diary.Database, staff: seq<Employee>, query: AvailabilityQuery, t: int)
    requires KeyedById(db) && IsStaffList(db, query.organizationId, staff)
    ensures Offerable(TakerAt(zones, db, staff, query), HorizonOf(query), t) <==>
            && t % GRID_MS == 0 && HorizonOf(query).earliest <= t && t + HorizonOf(query).durationMs <= HorizonOf(query).latest
            && SlotMayBeTaken(zones, db, query.organizationId, query.employeeId, t, EndOf(t, HorizonOf(query).durationMs))
  {
    var who := TakerAt(zones, db, staff, query);
    TakerAtIs(zones, db, staff, query, t);
    TakerMeans(zones, db, query.organizationId, staff, query.employeeId, t, EndOf(t, HorizonOf(query).durationMs));
    assert who(t).Some? <==>
        SlotMayBeTaken(zones, db, query.organizationId, query.employeeId, t, EndOf(t, HorizonOf(query).durationMs));
  }

  lemma OfferIsTrue(zones: Zones, db: Diary.Database, staff: seq<Employee>, query: AvailabilityQuery, offer: SlotOffer)
    requires KeyedById(db) && IsStaffList(db, query.organizationId, staff)
    requires IsOfferFor(TakerAt(zones, db, staff, query), HorizonOf(query), offer)
    ensures IsTrueOffer(zones, db, query, offer) && offer.endsAt == offer.startsAt + HorizonOf(query).durationMs
  {
    TakerAtIs(zones, db, staff, query, offer.startsAt);
    TakerMeans(zones, db, query.organizationId, staff, query.employeeId, offer.startsAt, offer.endsAt);
  }

  /**
   * The offers by the tables alone. Each starts on a half-hour, an hour's notice away or more, lasts
   * as long as asked (five minutes at least), is over when the days are, and names somebody asked
   * for who is at work throughout and free. They come in order, at most as many as asked for, and
   * no earlier time that somebody may take is left out.
   */
  lemma OffersMean(zones: Zones, db: Diary.Database, staff: seq<Employee>, query: AvailabilityQuery, offers: seq<SlotOffer>,
                   first: int, minutes: int)
    requires KeyedById(db) && IsStaffList(db, query.organizationId, staff)
    requires AreFirstOffers(TakerAt(zones, db, staff, query), HorizonOf(query), offers)
    // The first half-hour with an hour's notice, and the length rounded to whole minutes.
    requires first % 1_800_000 == 0 && query.from + 3_600_000 <= first < query.from + 5_400_000
    requires minutes as real <= query.durationMinutes + 0.5 < (minutes + 1) as real
    ensures var length := 60_000 * if minutes < 5 then 5 else minutes;
            var last := first + 86_400_000 * query.days;
            var most := if query.limit < 1 then 1 else query.limit;
            && |offers| <= most
            && (forall i, j :: 0 <= i < j < |offers| ==> offers[i].startsAt < offers[j].startsAt)
            && (forall i :: 0 <= i < |offers| ==>
                  && offers[i].startsAt % 1_800_000 == 0 && first <= offers[i].startsAt
                  && offers[i].endsAt == offers[i].startsAt + length && offers[i].endsAt <= last
                  && IsTrueOffer(zones, db, query, offers[i]))
            && (forall t :: t % 1_800_000 == 0 && first <= t && t + length <= last
                            && SlotMayBeTaken(zones, db, query.organizationId, query.employeeId, t, EndOf(t, length))
                  ==> || (exists i :: 0 <= i < |offers| && offers[i].startsAt == t)
                      || (|offers| == most && offers[most - 1].startsAt < t))
  {
    SearchMeans(query, first, minutes);
    var who, horizon := TakerAt(zones, db, staff, query), HorizonOf(query);
    forall i | 0 <= i < |offers|
      ensures IsTrueOffer(zones, db, query, offers[i]) && offers[i].endsAt == offers[i].startsAt + horizon.durationMs
      ensures first <= offers[i].startsAt
    {
      assert IsOfferFor(who, horizon, offers[i]);
      NotBeforeTheFirst(horizon.earliest, first, offers[i].startsAt);
      OfferIsTrue(zones, db, staff, query, offers[i]);
    }
    forall t | t % 1_800_000 == 0 && first <= t && t + horizon.durationMs <= horizon.latest
               && SlotMayBeTaken(zones, db, query.organizationId, query.employeeId, t, EndOf(t, horizon.durationMs))
      ensures Offerable(who, horizon, t)
    {
      NotBeforeTheFirst(horizon.earliest, first, t);
      OfferableMeans(zones, db, staff, query, t);
    }
  }

  /** What a booking for an offered slot asks of the diary. */
  function BookingFor(offer: SlotOffer, organization: Id, contact: Id): Diary.CreateInput {
    Diary.CreateInput(Some(organization), None, Some(contact), Some(offer.employeeId), Some(offer.startsAt), Some(offer.endsAt))
  }

  /** A free time of somebody who works for the business is written when it is not too long. */
  lemma FreeTimesAreWritten(db: Diary.Database, offer: SlotOffer, organization: Id, contact: Id, newId: Id)
    requires Diary.WorksFor(db, offer.employeeId, organization) && Free(db, offer.employeeId, offer.startsAt, offer.endsAt)
    requires offer.startsAt < offer.endsAt && newId !in db.bookings
    ensures var input := BookingFor(offer, organization, contact);
            var row := Diary.NewRow(input, organization, contact);
            Diary.RunAlone(db, Diary.CreateBegin(input), newId) ==
            if offer.endsAt - offer.startsAt <= Diary.MAX_DURATION_MS
            then (db.(bookings := db.bookings[newId := row]), Diary.Written(newId))
            else (db, Diary.Refused(Diary.TooLong))
  {
    var input := BookingFor(offer, organization, contact);
    var row := Diary.NewRow(input, organization, contact);
    if Diary.TimesProblem(input).None? {
      assert Diary.Advance(db, Diary.CreateBegin(input), newId) == (db, Diary.CreateCheck(row));
      Diary.CreateFromCheck(db, row, newId);
    } else {
      assert Diary.Advance(db, Diary.CreateBegin(input), newId) == (db, Diary.Finished(Diary.Refused(Diary.TooLong)));
    }
  }

  lemma DurationIsPositive(query: AvailabilityQuery)
    ensures HorizonOf(query).durationMs == DurationMs(query.durationMinutes) > 0
  {
  }

  lemma OfferFacts(who: int -> Option<Employee>, zones: Zones, db: Diary.Database, candidates: seq<Employee>,
                   horizon: Horizon, offer: SlotOffer)
    requires NamesTakers(who, zones, db, candidates, horizon.durationMs) && IsOfferFor(who, horizon, offer)
    ensures offer.endsAt == offer.startsAt + horizon.durationMs
    ensures var taker := Taker(zones, db, candidates, offer.startsAt, offer.endsAt);
            taker.Some? && offer.employeeId == taker.value.id && offer.employeeName == taker.value.fullName
  {
    assert NamesTaker(who, zones, db, candidates, horizon.durationMs, offer.startsAt);
  }

  /**
   * Search, decision and write agree. On an unchanged diary a time the search offers is accepted
   * by resolveSlot, with the same person, at any moment up to the time itself; and createBooking
   * for that person and time goes through exactly when the slot is at most eight hours long.
   */
  lemma OfferedSlotsCanBeTaken(zones: Zones, db: Diary.Database, staff: seq<Employee>, query: AvailabilityQuery,
                               offers: seq<SlotOffer>, k: nat, now: int, contact: Id, newId: Id)
    requires StaffAreOwn(db) && IsStaffList(db, query.organizationId, staff)
    requires AreFirstOffers(TakerAt(zones, db, staff, query), HorizonOf(query), offers)
    requires k < |offers| && now <= offers[k].startsAt && newId !in db.bookings
    ensures ResolveSlot(zones, db, query.organizationId, staff, offers[k].startsAt, offers[k].endsAt, now, query.employeeId)
         == Available(offers[k].employeeId, offers[k].employeeName)
    ensures var input := BookingFor(offers[k], query.organizationId, contact);
            Diary.RunAlone(db, Diary.CreateBegin(input), newId) ==
            if offers[k].endsAt - offers[k].startsAt <= Diary.MAX_DURATION_MS
            then (db.(bookings := db.bookings[newId := Diary.NewRow(input, query.organizationId, contact)]), Diary.Written(newId))
            else (db, Diary.Refused(Diary.TooLong))
  {
    var offer := offers[k];
    DurationIsPositive(query);
    TakerAtNamesTakers(zones, db, staff, query);
    OfferFacts(TakerAt(zones, db, staff, query), zones, db, Candidates(staff, query.employeeId), HorizonOf(query), offer);
    TakerIsListed(zones, db, query.organizationId, staff, query.employeeId, offer.startsAt, offer.endsAt);
    FreeTimesAreWritten(db, offer, query.organizationId, contact, newId);
    ResolveSlotDecides(zones, db, query.organizationId, staff, offer.startsAt, offer.endsAt, now, query.employeeId);
  }

  lemma TakerIsListed(zones: Zones, db: Diary.Database, organization: Id, staff: seq<Employee>, wanted: Option<Id>,
                      startsAt: int, endsAt: int)
    requires IsStaffList(db, organization, staff)
    requires Taker(zones, db, Candidates(staff, wanted), startsAt, endsAt).Some?
    ensures var e := Taker(zones, db, Candidates(staff, wanted), startsAt, endsAt).value;
            && e in Candidates(staff, wanted) && CanTake(zones, db, e, startsAt, endsAt)
            && Diary.WorksFor(db, e.id, organization)
  {
    var candidates := Candidates(staff, wanted);
    var taker := Taker(zones, db, candidates, startsAt, endsAt);
    var i :| 0 <= i < |candidates| && taker == Some(candidates[i]) && CanTake(zones, db, candidates[i], startsAt, endsAt);
    assert candidates[i] in staff;
  }
}