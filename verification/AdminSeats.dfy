/**
 * One seat per admin per business (packages/db/src/admin-seats.ts over the employees table of
 * migrations 001 and 108): what each statement does, ensureAdminSeat as its statements, every
 * interleaving of such runs, and what releaseEmptySeats takes away.
 */
module AdminSeats {
  import opened Prelude

  type Id = int

  const MINUTE_MS: int := 60_000
  const RELEASE_AFTER_MS: int := 15 * MINUTE_MS
  /** How long the signed state of a sign-in lives (apps/api/src/routes/connections.ts). */
  const STATE_TTL_MS: int := 10 * MINUTE_MS

  /**
   * An employees row. Emails are kept as lower() folds them, since they are only compared that
   * way; `holds` says that a connection, a WhatsApp number, a chat or a customer is filed under it.
   */
  datatype Row = Row(
    organizationId: Id,
    code: string,
    fullName: string,
    email: Option<string>,
    jobTitle: Option<string>,
    adminId: Option<string>,
    isActive: bool,
    createdAt: int,
    updatedAt: int,
    holds: bool)

  datatype Admin = Admin(id: string, fullName: string, email: string)

  type Rows = map<Id, Row>

  function SeatCode(adminId: string): string {
    "admin-" + if |adminId| < 8 then adminId else adminId[..8]
  }

  /** isCreatedSeat: a seat made for an admin, as opposed to a hire they were linked to. */
  predicate IsCreatedSeat(row: Row) {
    row.adminId.Some? && row.adminId.value != "" && row.code == SeatCode(row.adminId.value)
  }

  // ---- the table ----

  predicate LinkedTo(row: Row, organization: Id, adminId: string) {
    row.organizationId == organization && row.adminId == Some(adminId)
  }

  predicate HasLinked(rows: Rows, organization: Id, adminId: string) {
    exists id :: id in rows && LinkedTo(rows[id], organization, adminId)
  }

  predicate SameSeat(row: Row, row': Row) {
    row.adminId.Some? && LinkedTo(row', row.organizationId, row.adminId.value)
  }

  /** employees_one_seat_per_admin. */
  predicate OneSeatPerAdmin(rows: Rows) {
    forall i, j :: i in rows && j in rows && SameSeat(rows[i], rows[j]) ==> i == j
  }

  predicate HasCode(rows: Rows, organization: Id, code: string) {
    exists id :: id in rows && rows[id].organizationId == organization && rows[id].code == code
  }

  /** unique (organization_id, employee_code). */
  predicate OnePerCode(rows: Rows) {
    forall i, j :: i in rows && j in rows && rows[i].organizationId == rows[j].organizationId && rows[i].code == rows[j].code ==> i == j
  }

  predicate Lawful(rows: Rows) {
    OneSeatPerAdmin(rows) && OnePerCode(rows)
  }

  function LinkedId(rows: Rows, organization: Id, adminId: string): (id: Id)
    requires OneSeatPerAdmin(rows) && HasLinked(rows, organization, adminId)
    ensures id in rows && LinkedTo(rows[id], organization, adminId)
  {
    assert forall i, j :: i in rows && j in rows && LinkedTo(rows[i], organization, adminId) && LinkedTo(rows[j], organization, adminId)
                          ==> SameSeat(rows[i], rows[j]);
    var id :| id in rows && LinkedTo(rows[id], organization, adminId);
    id
  }

  /** What a read for the linked row finds. */
  function FindLinked(rows: Rows, organization: Id, adminId: string): Option<Id>
    requires OneSeatPerAdmin(rows)
  {
    if HasLinked(rows, organization, adminId) then Some(LinkedId(rows, organization, adminId)) else None
  }

  // ---- the statements ----

  predicate Adoptable(row: Row, organization: Id, admin: Admin) {
    row.organizationId == organization && row.adminId.None? && row.isActive && row.email == Some(admin.email)
  }

  /** What `order by created_at limit 1` may pick: ties go either way. */
  predicate IsOldestAdoptable(rows: Rows, organization: Id, admin: Admin, id: Id) {
    && id in rows && Adoptable(rows[id], organization, admin)
    && forall j :: j in rows && Adoptable(rows[j], organization, admin) ==> rows[id].createdAt <= rows[j].createdAt
  }

  predicate HasAdoptable(rows: Rows, organization: Id, admin: Admin) {
    exists id :: id in rows && Adoptable(rows[id], organization, admin)
  }

  function Activated(row: Row, now: int): Row {
    row.(isActive := true, updatedAt := now)
  }

  function Linked(row: Row, adminId: string, now: int): Row {
    row.(adminId := Some(adminId), updatedAt := now)
  }

  function NewSeat(organization: Id, admin: Admin, now: int): Row {
    Row(organization, SeatCode(admin.id), admin.fullName, Some(admin.email), Some("Admin"), Some(admin.id), true, now, now, false)
  }

  /** Where a run has got to: each stage but the last two is one statement away from the next. */
  datatype Stage = ToLink | ToAdopt | ToInsert | ToReread | ToFetch(id: Id) | Returned(id: Id, seat: Row) | Failed

  /** What the database decides for a statement: its clock, the row a tie falls to, the id of an insert. */
  datatype Chance = Chance(now: int, pick: Id, newId: Id)

  predicate Fair(rows: Rows, organization: Id, admin: Admin, stage: Stage, chance: Chance) {
    && (stage.ToAdopt? && HasAdoptable(rows, organization, admin) ==> IsOldestAdoptable(rows, organization, admin, chance.pick))
    && (stage.ToInsert? ==> chance.newId !in rows)
  }

  /** The next statement of a run. A statement that breaks a unique index raises, and the run fails. */
  function Advance(rows: Rows, organization: Id, admin: Admin, stage: Stage, chance: Chance): (Rows, Stage)
    requires Lawful(rows) && Fair(rows, organization, admin, stage, chance)
  {
    match stage
    case ToLink =>
      if HasLinked(rows, organization, admin.id) then
        var id := LinkedId(rows, organization, admin.id);
        (rows[id := Activated(rows[id], chance.now)], ToFetch(id))
      else (rows, ToAdopt)
    case ToAdopt =>
      if !HasAdoptable(rows, organization, admin) then (rows, ToInsert)
      else if HasLinked(rows, organization, admin.id) then (rows, Failed)
      else (rows[chance.pick := Linked(rows[chance.pick], admin.id, chance.now)], ToFetch(chance.pick))
    case ToInsert =>
      if HasLinked(rows, organization, admin.id) || HasCode(rows, organization, SeatCode(admin.id)) then (rows, ToReread)
      else (rows[chance.newId := NewSeat(organization, admin, chance.now)], ToFetch(chance.newId))
    case ToReread =>
      if HasLinked(rows, organization, admin.id) then (rows, ToFetch(LinkedId(rows, organization, admin.id)))
      else (rows, Failed)
    case ToFetch(id) => if id in rows then (rows, Returned(id, rows[id])) else (rows, Failed)
    case _ => (rows, stage)
  }

  /** Every statement keeps both unique indexes. */
  lemma AdvanceKeepsLawful(rows: Rows, organization: Id, admin: Admin, stage: Stage, chance: Chance)
    requires Lawful(rows) && Fair(rows, organization, admin, stage, chance)
    ensures Lawful(Advance(rows, organization, admin, stage, chance).0)
  {
    var rows' := Advance(rows, organization, admin, stage, chance).0;
    forall i, j | i in rows' && j in rows' && rows'[i].organizationId == rows'[j].organizationId && rows'[i].code == rows'[j].code
      ensures i == j
    {
    }
    forall i, j | i in rows' && j in rows' && SameSeat(rows'[i], rows'[j])
      ensures i == j
    {
    }
  }

  /** No statement of a run unlinks or deletes anything. */
  lemma AdvanceKeepsLinks(rows: Rows, organization: Id, admin: Admin, stage: Stage, chance: Chance, id: Id)
    requires Lawful(rows) && Fair(rows, organization, admin, stage, chance)
    requires id in rows && rows[id].adminId.Some?
    ensures var rows' := Advance(rows, organization, admin, stage, chance).0;
            && id in rows' && rows'[id].adminId == rows[id].adminId && rows'[id].organizationId == rows[id].organizationId
  {
  }

  // ---- one run on its own ----

  datatype Outcome = Seat(id: Id) | CouldNotBeMade

  /** The seat, in the terms of the source's own description. */
  ghost predicate EnsuresSeat(rows: Rows, organization: Id, admin: Admin, now: int, rows': Rows, outcome: Outcome) {
    if HasLinked(rows, organization, admin.id) then
      exists id :: id in rows && LinkedTo(rows[id], organization, admin.id)
        && outcome == Seat(id) && rows' == rows[id := rows[id].(isActive := true, updatedAt := now)]
    else if HasAdoptable(rows, organization, admin) then
      exists id :: IsOldestAdoptable(rows, organization, admin, id)
        && outcome == Seat(id) && rows' == rows[id := rows[id].(adminId := Some(admin.id), updatedAt := now)]
    else if !HasCode(rows, organization, SeatCode(admin.id)) then
      exists id :: id !in rows
        && outcome == Seat(id) && rows' == rows[id := NewSeat(organization, admin, now)]
    else outcome == CouldNotBeMade && rows' == rows
  }

  function StepsLeft(stage: Stage): nat {
    match stage
    case ToLink => 5
    case ToAdopt => 4
    case ToInsert => 3
    case ToReread => 2
    case ToFetch(_) => 1
    case _ => 0
  }

  /** The statements of a run with nothing between them. */
  function RunAlone(rows: Rows, organization: Id, admin: Admin, stage: Stage, chance: Chance): (Rows, Stage)
    requires Lawful(rows) && (StepsLeft(stage) >= 3 ==> chance.newId !in rows)
    requires StepsLeft(stage) >= 4 && HasAdoptable(rows, organization, admin) ==> IsOldestAdoptable(rows, organization, admin, chance.pick)
    decreases StepsLeft(stage)
  {
    if StepsLeft(stage) == 0 then (rows, stage)
    else
      var (rows', stage') := Advance(rows, organization, admin, stage, chance);
      AdvanceKeepsLawful(rows, organization, admin, stage, chance);
      RunAlone(rows', organization, admin, stage', chance)
  }

  /** The statements one after another do what the source says a seat is. */
  lemma RunAloneEnsuresSeat(rows: Rows, organization: Id, admin: Admin, chance: Chance)
    requires Lawful(rows) && chance.newId !in rows
    requires HasAdoptable(rows, organization, admin) ==> IsOldestAdoptable(rows, organization, admin, chance.pick)
    ensures var (rows', last) := RunAlone(rows, organization, admin, ToLink, chance);
            && EnsuresSeat(rows, organization, admin, chance.now, rows', if last.Returned? then Seat(last.id) else CouldNotBeMade)
            && (last.Returned? ==> last.id in rows' && last.seat == rows'[last.id])
  {
    var (rows1, stage1) := Advance(rows, organization, admin, ToLink, chance);
    if stage1.ToFetch? {
      assert RunAlone(rows1, organization, admin, stage1, chance) == (rows1, Returned(stage1.id, rows1[stage1.id]));
    } else {
      AloneFromAdopt(rows, organization, admin, chance);
    }
  }

  lemma AloneFromAdopt(rows: Rows, organization: Id, admin: Admin, chance: Chance)
    requires Lawful(rows) && chance.newId !in rows && !HasLinked(rows, organization, admin.id)
    requires HasAdoptable(rows, organization, admin) ==> IsOldestAdoptable(rows, organization, admin, chance.pick)
    ensures RunAlone(rows, organization, admin, ToAdopt, chance) ==
            if HasAdoptable(rows, organization, admin) then
              var row := Linked(rows[chance.pick], admin.id, chance.now);
              (rows[chance.pick := row], Returned(chance.pick, row))
            else if !HasCode(rows, organization, SeatCode(admin.id)) then
              var row := NewSeat(organization, admin, chance.now);
              (rows[chance.newId := row], Returned(chance.newId, row))
            else (rows, Failed)
  {
    var (rows2, stage2) := Advance(rows, organization, admin, ToAdopt, chance);
    AdvanceKeepsLawful(rows, organization, admin, ToAdopt, chance);
    if stage2.ToFetch? {
      assert RunAlone(rows2, organization, admin, stage2, chance) == (rows2, Returned(stage2.id, rows2[stage2.id]));
    } else {
      var (rows3, stage3) := Advance(rows, organization, admin, ToInsert, chance);
      AdvanceKeepsLawful(rows, organization, admin, ToInsert, chance);
      if stage3.ToFetch? {
        assert RunAlone(rows3, organization, admin, stage3, chance) == (rows3, Returned(stage3.id, rows3[stage3.id]));
      } else {
        assert RunAlone(rows, organization, admin, ToReread, chance) == (rows, Failed);
      }
    }
  }

  class SeatTable {
    var rows: Rows

    /** ensureAdminSeat, with nothing between its statements. */
    method EnsureAdminSeat(admin: Admin, organization: Id, now: int, newId: Id) returns (outcome: Outcome)
      requires Lawful(rows) && newId !in rows
      modifies this
      ensures EnsuresSeat(old(rows), organization, admin, now, rows, outcome)
      ensures Lawful(rows)
    {
      ghost var before := rows;
      var id: Option<Id> := None;
      if HasLinked(rows, organization, admin.id) {
        var linked := LinkedId(rows, organization, admin.id);
        AdvanceKeepsLawful(rows, organization, admin, ToLink, Chance(now, 0, newId));
        rows := rows[linked := Activated(rows[linked], now)];
        id := Some(linked);
      }
      if id.None? {
        if HasAdoptable(rows, organization, admin) {
          HasOldest(rows, organization, admin);
          var pick :| pick in rows && IsOldestAdoptable(rows, organization, admin, pick);
          AdvanceKeepsLawful(rows, organization, admin, ToAdopt, Chance(now, pick, newId));
          rows := rows[pick := Linked(rows[pick], admin.id, now)];
          id := Some(pick);
        }
      }
      if id.None? {
        if !HasLinked(rows, organization, admin.id) && !HasCode(rows, organization, SeatCode(admin.id)) {
          AdvanceKeepsLawful(rows, organization, admin, ToInsert, Chance(now, newId, newId));
          rows := rows[newId := NewSeat(organization, admin, now)];
          id := Some(newId);
        }
      }
      if id.None? {
        id := FindLinked(rows, organization, admin.id);
      }
      if id.None? || id.value !in rows {
        return CouldNotBeMade;
      }
      return Seat(id.value);
    }

    /** findAdminSeat: the linked record, while it is active. */
    method FindAdminSeat(adminId: string, organization: Id) returns (id: Option<Id>)
      requires Lawful(rows)
      ensures id.Some? <==> exists i :: i in rows && rows[i].organizationId == organization && rows[i].adminId == Some(adminId)
                                        && rows[i].isActive
      ensures id.Some? ==> && id.value in rows && rows[id.value].organizationId == organization
                           && rows[id.value].adminId == Some(adminId) && rows[id.value].isActive
    {
      assert forall i :: i in rows && rows[i].organizationId == organization && rows[i].adminId == Some(adminId)
                         ==> LinkedTo(rows[i], organization, adminId);
      if HasLinked(rows, organization, adminId) {
        var linked := LinkedId(rows, organization, adminId);
        if rows[linked].isActive {
          return Some(linked);
        }
      }
      return None;
    }

    /** releaseEmptySeats, and how many went. */
    method ReleaseEmptySeats(organization: Id, now: int) returns (count: nat)
      requires Lawful(rows)
      modifies this
      ensures rows == Released(old(rows), organization, now)
      ensures count == |old(rows)| - |rows| && Lawful(rows)
    {
      var gone := EmptySeats(rows, organization, now);
      RemovingKeepsLawful(rows, gone);
      RemovedCount(rows, gone);
      rows := rows - gone;
      count := |gone|;
    }
  }

  lemma RemovingKeepsLawful(rows: Rows, gone: set<Id>)
    requires Lawful(rows)
    ensures Lawful(rows - gone)
  {
  }

  lemma RemovedCount(rows: Rows, gone: set<Id>)
    requires gone <= rows.Keys
    ensures |gone| == |rows| - |rows - gone|
  {
    assert rows.Keys == (rows - gone).Keys + gone;
    assert |rows.Keys| == |(rows - gone).Keys| + |gone|;
  }

  lemma HasOldest(rows: Rows, organization: Id, admin: Admin)
    requires HasAdoptable(rows, organization, admin)
    ensures exists id :: IsOldestAdoptable(rows, organization, admin, id)
  {
    var candidates := set id | id in rows && Adoptable(rows[id], organization, admin);
    var some :| some in rows && Adoptable(rows[some], organization, admin);
    assert some in candidates;
    var id := OldestIn(rows, candidates, some);
    assert IsOldestAdoptable(rows, organization, admin, id);
  }

  lemma {:induction false} OldestIn(rows: Rows, ids: set<Id>, some: Id) returns (id: Id)
    requires some in ids && ids <= rows.Keys
    ensures id in ids && forall j :: j in ids ==> rows[id].createdAt <= rows[j].createdAt
    decreases |ids|
  {
    id := some;
    if next :| next in ids && next != some {
      var other := OldestIn(rows, ids - {some}, next);
      if rows[other].createdAt < rows[id].createdAt {
        id := other;
      }
    }
  }

  // ---- whose record it is, by the rows alone ----

  /** The record carries that admin's link in that business. */
  predicate IsSeatOf(row: Row, organization: Id, adminId: string) {
    row.adminId == Some(adminId) && row.organizationId == organization
  }

  /** An active record of the business with nobody linked to it, and that email. */
  predicate IsHireWithEmail(row: Row, organization: Id, email: string) {
    row.isActive && row.adminId == None && row.email == Some(email) && row.organizationId == organization
  }

  ghost predicate NobodyLinked(rows: Rows, organization: Id, adminId: string) {
    forall j :: j in rows ==> !IsSeatOf(rows[j], organization, adminId)
  }

  ghost predicate NoHire(rows: Rows, organization: Id, email: string) {
    forall j :: j in rows ==> !IsHireWithEmail(rows[j], organization, email)
  }

  /** Nobody in the business has the code "admin-" and the first eight characters of the id. */
  ghost predicate CodeIsFree(rows: Rows, organization: Id, adminId: string) {
    forall j :: j in rows && rows[j].organizationId == organization
      ==> rows[j].code != "admin-" + if |adminId| <= 8 then adminId else adminId[..8]
  }

  lemma LinkedMeans(rows: Rows, organization: Id, adminId: string)
    ensures HasLinked(rows, organization, adminId) <==> !NobodyLinked(rows, organization, adminId)
  {
    if j :| j in rows && IsSeatOf(rows[j], organization, adminId) {
      assert LinkedTo(rows[j], organization, adminId);
    }
  }

  lemma AdoptableMeans(rows: Rows, organization: Id, admin: Admin)
    ensures forall j :: j in rows ==> (Adoptable(rows[j], organization, admin) <==> IsHireWithEmail(rows[j], organization, admin.email))
    ensures HasAdoptable(rows, organization, admin) <==> !NoHire(rows, organization, admin.email)
  {
    if j :| j in rows && IsHireWithEmail(rows[j], organization, admin.email) {
      assert Adoptable(rows[j], organization, admin);
    }
  }

  lemma CodeMeans(rows: Rows, organization: Id, adminId: string)
    ensures HasCode(rows, organization, SeatCode(adminId)) <==> !CodeIsFree(rows, organization, adminId)
  {
    assert |adminId| == 8 ==> adminId[..8] == adminId;
  }

  /**
   * The seat that ensureAdminSeat gives, by the rows alone: the record linked already; or else the
   * oldest active unlinked record of the business with the admin's own email; or else a new one
   * carrying the admin's id, name and email. No other record changes.
   */
  lemma SeatMeans(rows: Rows, organization: Id, admin: Admin, now: int, rows': Rows, id: Id)
    requires EnsuresSeat(rows, organization, admin, now, rows', Seat(id))
    ensures id in rows' && rows'[id].isActive && IsSeatOf(rows'[id], organization, admin.id)
    ensures rows'.Keys == rows.Keys + {id} && forall j :: j in rows && j != id ==> rows'[j] == rows[j]
    ensures id in rows && IsSeatOf(rows[id], organization, admin.id) ==> rows'[id] == rows[id].(isActive := true, updatedAt := now)
    ensures id in rows && !IsSeatOf(rows[id], organization, admin.id) ==>
              && NobodyLinked(rows, organization, admin.id) && IsHireWithEmail(rows[id], organization, admin.email)
              && (forall j :: j in rows && IsHireWithEmail(rows[j], organization, admin.email) ==> rows[id].createdAt <= rows[j].createdAt)
              && rows'[id] == rows[id].(adminId := Some(admin.id), updatedAt := now)
    ensures id !in rows ==>
              && NobodyLinked(rows, organization, admin.id) && NoHire(rows, organization, admin.email)
              && CodeIsFree(rows, organization, admin.id)
              && rows'[id] == Row(organization, "admin-" + if |admin.id| <= 8 then admin.id else admin.id[..8], admin.fullName,
                                  Some(admin.email), Some("Admin"), Some(admin.id), true, now, now, false)
  {
    LinkedMeans(rows, organization, admin.id);
    AdoptableMeans(rows, organization, admin);
    CodeMeans(rows, organization, admin.id);
    assert |admin.id| == 8 ==> admin.id[..8] == admin.id;
  }

  /** It cannot be made exactly when nobody is linked, there is nobody to adopt, and the code is taken. */
  lemma NoSeatMeans(rows: Rows, organization: Id, admin: Admin, now: int, rows': Rows, outcome: Outcome)
    requires EnsuresSeat(rows, organization, admin, now, rows', outcome)
    ensures outcome == CouldNotBeMade <==>
            && NobodyLinked(rows, organization, admin.id) && NoHire(rows, organization, admin.email)
            && !CodeIsFree(rows, organization, admin.id)
    ensures outcome == CouldNotBeMade ==> rows' == rows
  {
    LinkedMeans(rows, organization, admin.id);
    AdoptableMeans(rows, organization, admin);
    CodeMeans(rows, organization, admin.id);
  }

  // ---- what releasing takes ----

  predicate IsEmptySeat(row: Row, organization: Id, now: int) {
    && row.organizationId == organization && row.adminId.Some? && row.code == SeatCode(row.adminId.value)
    && row.createdAt < now - RELEASE_AFTER_MS && !row.holds
  }

  function Released(rows: Rows, organization: Id, now: int): Rows {
    rows - EmptySeats(rows, organization, now)
  }

  function EmptySeats(rows: Rows, organization: Id, now: int): set<Id> {
    set id | id in rows && IsEmptySeat(rows[id], organization, now)
  }

  /** Releasing never takes a hire the admin was linked to, and never a seat that holds something. */
  lemma ReleaseTakesOnlyEmptyCreatedSeats(rows: Rows, organization: Id, now: int, id: Id)
    requires id in rows && rows[id].adminId != Some("")
    ensures id !in Released(rows, organization, now)
       <==> && rows[id].organizationId == organization && IsCreatedSeat(rows[id]) && !rows[id].holds
            && rows[id].createdAt + 900_000 < now
    ensures IsCreatedSeat(rows[id]) <==>
            && rows[id].adminId.Some?
            && var adminId := rows[id].adminId.value; rows[id].code == "admin-" + if |adminId| <= 8 then adminId else adminId[..8]
    ensures id in Released(rows, organization, now) ==> Released(rows, organization, now)[id] == rows[id]
  {
  }

  /**
   * "Made longer ago than any sign-in can take" is decided by when the row was made, and a seat
   * found again keeps that time. So the seat a run hands out at `now` outlives every release for
   * as long as the sign-in's state does exactly when it is not an empty created seat, or was
   * made at most five minutes before.
   */
  lemma SeatOutlivesSignIn(rows: Rows, organization: Id, admin: Admin, now: int, rows': Rows, id: Id)
    requires Lawful(rows) && EnsuresSeat(rows, organization, admin, now, rows', Seat(id))
    ensures id in rows'
    ensures (forall t :: now <= t <= now + 600_000 ==> id in Released(rows', organization, t))
       <==> rows'[id].code != SeatCode(admin.id) || rows'[id].holds || rows'[id].createdAt >= now - 300_000
  {
    assert LinkedTo(rows'[id], organization, admin.id);
    var last := now + STATE_TTL_MS;
    assert IsEmptySeat(rows'[id], organization, last) <==> id !in Released(rows', organization, last);
    forall t | now <= t <= last && !IsEmptySeat(rows'[id], organization, last)
      ensures id in Released(rows', organization, t)
    {
      assert !IsEmptySeat(rows'[id], organization, t);
    }
  }

  /** A seat made by this very run is safe for the whole of its sign-in. */
  lemma NewSeatOutlivesSignIn(rows: Rows, organization: Id, admin: Admin, now: int, rows': Rows, id: Id)
    requires Lawful(rows) && EnsuresSeat(rows, organization, admin, now, rows', Seat(id)) && id !in rows
    ensures forall t :: now <= t <= now + STATE_TTL_MS ==> id in Released(rows', organization, t)
  {
    SeatOutlivesSignIn(rows, organization, admin, now, rows', id);
  }

  /** An abandoned seat found again can be taken away while its new sign-in is still open. */
  lemma OldSeatCanGoDuringSignIn(admin: Admin, organization: Id, id: Id, now: int) returns (rows: Rows, rows': Rows)
    ensures Lawful(rows) && EnsuresSeat(rows, organization, admin, now, rows', Seat(id))
    ensures id in rows' && rows'[id].isActive && id !in Released(rows', organization, now + MINUTE_MS)
  {
    var made := NewSeat(organization, admin, now - 20 * MINUTE_MS);
    rows := map[id := made];
    assert LinkedTo(rows[id], organization, admin.id);
    rows' := rows[id := Activated(made, now)];
    assert IsEmptySeat(rows'[id], organization, now + MINUTE_MS);
  }

  /** Running again gives the same seat, and changes nothing but its active flag and timestamp. */
  lemma RerunChangesNothingElse(rows: Rows, organization: Id, admin: Admin, now: int, rows': Rows, id: Id,
                                later: int, rows'': Rows, outcome: Outcome)
    requires Lawful(rows) && Lawful(rows')
    requires EnsuresSeat(rows, organization, admin, now, rows', Seat(id))
    requires EnsuresSeat(rows', organization, admin, later, rows'', outcome)
    ensures outcome == Seat(id) && rows'' == rows'[id := rows'[id].(isActive := true, updatedAt := later)]
  {
    assert LinkedTo(rows'[id], organization, admin.id);
    assert HasLinked(rows', organization, admin.id);
    forall j | j in rows' && LinkedTo(rows'[j], organization, admin.id)
      ensures j == id
    {
      assert SameSeat(rows'[j], rows'[id]);
    }
  }

  // ---- every interleaving ----

  /** A run; `lost` once the seat it had in hand was released, or its admin's account removed. */
  datatype Attempt = Attempt(organization: Id, admin: Admin, stage: Stage, lost: bool)

  datatype World = World(rows: Rows, runs: map<Id, Attempt>)

  datatype Event =
    | Start(pid: Id, organization: Id, admin: Admin)
    | Statement(pid: Id, chance: Chance)
    | AddHire(id: Id, row: Row)
    | EditHire(id: Id, row: Row)
    | Release(organization: Id, now: int)
    | RemoveAdmin(adminId: string)

  predicate Enabled(w: World, event: Event)
  {
    match event
    case Start(pid, _, _) => pid !in w.runs
    case Statement(pid, chance) =>
      pid in w.runs && Lawful(w.rows) && Fair(w.rows, w.runs[pid].organization, w.runs[pid].admin, w.runs[pid].stage, chance)
    case AddHire(id, row) => id !in w.rows && row.adminId.None? && !HasCode(w.rows, row.organizationId, row.code)
    case EditHire(id, row) =>
      && id in w.rows && row.organizationId == w.rows[id].organizationId && row.code == w.rows[id].code
      && row.adminId == w.rows[id].adminId && row.createdAt == w.rows[id].createdAt
    case Release(_, _) => true
    case RemoveAdmin(_) => true
  }

  function Unlinked(row: Row, adminId: string): Row {
    if row.adminId == Some(adminId) then row.(adminId := None) else row
  }

  predicate HasSeat(run: Attempt) {
    run.stage.ToFetch? || run.stage.Returned?
  }

  /** The run after those records stopped being seats. */
  function Losing(run: Attempt, gone: set<Id>): Attempt {
    run.(lost := run.lost || (HasSeat(run) && run.stage.id in gone))
  }

  /** The admin's linked records. */
  function SeatsOf(rows: Rows, adminId: string): set<Id> {
    set id | id in rows && rows[id].adminId == Some(adminId)
  }

  function Fire(w: World, event: Event): World
    requires Enabled(w, event)
  {
    match event
    case Start(pid, organization, admin) => w.(runs := w.runs[pid := Attempt(organization, admin, ToLink, false)])
    case Statement(pid, chance) =>
      var run := w.runs[pid];
      var (rows', stage') := Advance(w.rows, run.organization, run.admin, run.stage, chance);
      w.(rows := rows', runs := w.runs[pid := run.(stage := stage')])
    case AddHire(id, row) => w.(rows := w.rows[id := row])
    case EditHire(id, row) => w.(rows := w.rows[id := row])
    case Release(organization, now) =>
      World(Released(w.rows, organization, now),
            map pid | pid in w.runs :: Losing(w.runs[pid], EmptySeats(w.rows, organization, now)))
    case RemoveAdmin(adminId) =>
      World(map id | id in w.rows :: Unlinked(w.rows[id], adminId),
            map pid | pid in w.runs :: Losing(w.runs[pid], SeatsOf(w.rows, adminId)))
  }

  /** The seat a run has in hand is the linked record, for as long as nobody took it away. */
  predicate HoldsSeat(rows: Rows, run: Attempt) {
    HasSeat(run) && !run.lost ==> run.stage.id in rows && LinkedTo(rows[run.stage.id], run.organization, run.admin.id)
  }

  ghost predicate Invariant(w: World) {
    Lawful(w.rows) && forall pid :: pid in w.runs ==> HoldsSeat(w.rows, w.runs[pid])
  }

  lemma StatementKeepsInvariant(w: World, pid: Id, chance: Chance)
    requires Invariant(w) && Enabled(w, Statement(pid, chance))
    ensures Invariant(Fire(w, Statement(pid, chance)))
  {
    var w' := Fire(w, Statement(pid, chance));
    var run := w.runs[pid];
    AdvanceKeepsLawful(w.rows, run.organization, run.admin, run.stage, chance);
    forall q | q in w'.runs
      ensures HoldsSeat(w'.rows, w'.runs[q])
    {
      if q != pid {
        assert HoldsSeat(w.rows, w.runs[q]);
        if HasSeat(w.runs[q]) {
          var id: Id := w.runs[q].stage.id;
          if id in w.rows && w.rows[id].adminId.Some? {
            AdvanceKeepsLinks(w.rows, run.organization, run.admin, run.stage, chance, id);
          }
        }
      }
    }
  }

  lemma RemovalKeepsInvariant(w: World, event: Event)
    requires Invariant(w) && Enabled(w, event) && (event.Release? || event.RemoveAdmin?)
    ensures Invariant(Fire(w, event))
  {
    var w' := Fire(w, event);
    forall i, j | i in w'.rows && j in w'.rows && SameSeat(w'.rows[i], w'.rows[j])
      ensures i == j
    {
      assert SameSeat(w.rows[i], w.rows[j]);
    }
    forall q | q in w'.runs
      ensures HoldsSeat(w'.rows, w'.runs[q])
    {
      assert HoldsSeat(w.rows, w.runs[q]);
    }
  }

  lemma EventKeepsInvariant(w: World, event: Event)
    requires Invariant(w) && Enabled(w, event)
    ensures Invariant(Fire(w, event))
  {
    match event
    case Statement(pid, chance) => StatementKeepsInvariant(w, pid, chance);
    case Release(_, _) => RemovalKeepsInvariant(w, event);
    case RemoveAdmin(_) => RemovalKeepsInvariant(w, event);
    case _ =>
      var w' := Fire(w, event);
      forall i, j | i in w'.rows && j in w'.rows && SameSeat(w'.rows[i], w'.rows[j])
        ensures i == j
      {
        assert SameSeat(w.rows[i], w.rows[j]);
      }
      forall q | q in w'.runs
        ensures HoldsSeat(w'.rows, w'.runs[q])
      {
        assert q in w.runs ==> HoldsSeat(w.rows, w.runs[q]);
      }
  }

  ghost predicate CanRun(w: World, events: seq<Event>)
    decreases |events|
  {
    events == [] || (Enabled(w, events[0]) && CanRun(Fire(w, events[0]), events[1..]))
  }

  function Run(w: World, events: seq<Event>): World
    requires CanRun(w, events)
    decreases |events|
  {
    if events == [] then w else Run(Fire(w, events[0]), events[1..])
  }

  lemma {:induction false} RunKeepsInvariant(w: World, events: seq<Event>)
    requires Invariant(w) && CanRun(w, events)
    ensures Invariant(Run(w, events))
    decreases |events|
  {
    if events != [] {
      EventKeepsInvariant(w, events[0]);
      RunKeepsInvariant(Fire(w, events[0]), events[1..]);
    }
  }

  function Opened(rows: Rows): World {
    World(rows, map[])
  }

  /**
   * However runs interleave with each other and with everything else that happens to the table,
   * an admin never has two linked records in a business; and any two runs for one admin and
   * business that have returned gave the same seat, unless one of them has lost it since. What was
   * taken away before a run had its seat makes no difference.
   */
  lemma RunsConvergeOnOneSeat(rows: Rows, events: seq<Event>, p: Id, q: Id)
    requires Lawful(rows) && CanRun(Opened(rows), events)
    ensures var rows' := Run(Opened(rows), events).rows;
            forall i, j | i in rows' && j in rows' && rows'[i].organizationId == rows'[j].organizationId && i != j ::
              (rows'[i].adminId.Some? ==> rows'[i].adminId != rows'[j].adminId) && rows'[i].code != rows'[j].code
    ensures var w := Run(Opened(rows), events);
            && p in w.runs && q in w.runs && w.runs[p].stage.Returned? && w.runs[q].stage.Returned?
            && w.runs[p].organization == w.runs[q].organization && w.runs[p].admin.id == w.runs[q].admin.id
            && !w.runs[p].lost && !w.runs[q].lost
            ==> w.runs[p].stage.id == w.runs[q].stage.id
  {
    var w := Run(Opened(rows), events);
    RunKeepsInvariant(Opened(rows), events);
    forall i, j | i in w.rows && j in w.rows && w.rows[i].organizationId == w.rows[j].organizationId
      ensures w.rows[i].adminId.Some? && w.rows[i].adminId == w.rows[j].adminId ==> SameSeat(w.rows[i], w.rows[j])
    {
    }
    if p in w.runs && q in w.runs && w.runs[p].stage.Returned? && w.runs[q].stage.Returned?
       && w.runs[p].organization == w.runs[q].organization && w.runs[p].admin.id == w.runs[q].admin.id
       && !w.runs[p].lost && !w.runs[q].lost {
      assert HoldsSeat(w.rows, w.runs[p]) && HoldsSeat(w.rows, w.runs[q]);
      assert SameSeat(w.rows[w.runs[p].stage.id], w.rows[w.runs[q].stage.id]);
    }
  }

  // ---- first connects at once ----

  predicate AtMostOneAdoptable(rows: Rows, organization: Id, admin: Admin) {
    forall i, j :: i in rows && j in rows && Adoptable(rows[i], organization, admin) && Adoptable(rows[j], organization, admin) ==> i == j
  }

  // ---- other people's records ----

  /** Not linked to the admin, and not with their email; or of another business. */
  predicate IsAnothers(row: Row, organization: Id, admin: Admin) {
    row.organizationId != organization || (row.adminId != Some(admin.id) && row.email != Some(admin.email))
  }

  lemma StatementLeavesOthers(rows: Rows, organization: Id, admin: Admin, stage: Stage, chance: Chance, k: Id)
    requires Lawful(rows) && Fair(rows, organization, admin, stage, chance)
    requires k in rows && IsAnothers(rows[k], organization, admin)
    ensures var rows' := Advance(rows, organization, admin, stage, chance).0; k in rows' && rows'[k] == rows[k]
  {
  }

  lemma {:induction false} RunsPersist(w: World, events: seq<Event>, pid: Id)
    requires CanRun(w, events) && pid in w.runs
    ensures var w' := Run(w, events);
            pid in w'.runs && w'.runs[pid].organization == w.runs[pid].organization && w'.runs[pid].admin == w.runs[pid].admin
    decreases |events|
  {
    if events != [] {
      RunsPersist(Fire(w, events[0]), events[1..], pid);
    }
  }

  ghost predicate NoneOfTheirs(w: World, row: Row) {
    forall pid :: pid in w.runs ==> IsAnothers(row, w.runs[pid].organization, w.runs[pid].admin)
  }

  /** Whatever runs interleave, for whichever admins, a record that is none of theirs stays exactly as it is. */
  lemma {:induction false} RunsLeaveOthersRecords(w: World, events: seq<Event>, k: Id)
    requires CanRun(w, events) && k in w.rows
    requires forall i :: 0 <= i < |events| ==> events[i].Start? || events[i].Statement?
    requires NoneOfTheirs(Run(w, events), w.rows[k])
    ensures k in Run(w, events).rows && Run(w, events).rows[k] == w.rows[k]
    decreases |events|
  {
    if events != [] {
      var event := events[0];
      if event.Statement? {
        var run := w.runs[event.pid];
        RunsPersist(w, events, event.pid);
        StatementLeavesOthers(w.rows, run.organization, run.admin, run.stage, event.chance, k);
      }
      assert forall i :: 0 <= i < |events[1..]| ==> events[1..][i] == events[i + 1];
      assert Fire(w, event).rows[k] == w.rows[k];
      assert Run(w, events) == Run(Fire(w, event), events[1..]);
      RunsLeaveOthersRecords(Fire(w, event), events[1..], k);
    }
  }

  /** Only runs for this admin and business, in any interleaving. */
  predicate IsConnect(event: Event, organization: Id, admin: Admin) {
    match event
    case Start(_, o, a) => o == organization && a == admin
    case Statement(_, _) => true
    case _ => false
  }

  predicate AtStage(w: World, stage: Stage) {
    exists pid :: pid in w.runs && w.runs[pid].stage == stage
  }

  /** Nobody linked yet: at most one record to adopt, or none and the seat's code free. */
  predicate CanBeSeated(rows: Rows, organization: Id, admin: Admin) {
    && AtMostOneAdoptable(rows, organization, admin)
    && (HasAdoptable(rows, organization, admin) || !HasCode(rows, organization, SeatCode(admin.id)))
  }

  /** Why no run can fail: what the table looks like to the runs at each stage. */
  ghost predicate Converging(w: World, organization: Id, admin: Admin) {
    && Lawful(w.rows)
    && (forall pid :: pid in w.runs ==>
          && w.runs[pid].organization == organization && w.runs[pid].admin == admin && !w.runs[pid].stage.Failed? && !w.runs[pid].lost
          && (w.runs[pid].stage.ToFetch? ==> w.runs[pid].stage.id in w.rows))
    && (if HasLinked(w.rows, organization, admin.id)
        then !AtStage(w, ToAdopt) || !HasAdoptable(w.rows, organization, admin)
        else
          && CanBeSeated(w.rows, organization, admin) && !AtStage(w, ToReread)
          && (AtStage(w, ToInsert) ==> !HasAdoptable(w.rows, organization, admin)))
  }

  lemma OthersStay(w: World, pid: Id, chance: Chance, stage: Stage)
    requires Enabled(w, Statement(pid, chance))
    requires AtStage(Fire(w, Statement(pid, chance)), stage) && Fire(w, Statement(pid, chance)).runs[pid].stage != stage
    ensures AtStage(w, stage)
  {
    var w' := Fire(w, Statement(pid, chance));
    var q :| q in w'.runs && w'.runs[q].stage == stage;
    assert q in w.runs && w.runs[q].stage == stage;
  }

  lemma NoneAppears(rows: Rows, rows': Rows, organization: Id, admin: Admin)
    requires forall j :: j in rows' && Adoptable(rows'[j], organization, admin) ==> j in rows && Adoptable(rows[j], organization, admin)
    ensures HasAdoptable(rows', organization, admin) ==> HasAdoptable(rows, organization, admin)
  {
  }

  lemma LinkStepConverges(w: World, pid: Id, chance: Chance, organization: Id, admin: Admin)
    requires Converging(w, organization, admin) && Enabled(w, Statement(pid, chance)) && w.runs[pid].stage == ToLink
    ensures Converging(Fire(w, Statement(pid, chance)), organization, admin)
  {
    var w' := Fire(w, Statement(pid, chance));
    AdvanceKeepsLawful(w.rows, organization, admin, ToLink, chance);
    if HasLinked(w.rows, organization, admin.id) {
      var id := LinkedId(w.rows, organization, admin.id);
      assert LinkedTo(w'.rows[id], organization, admin.id);
      if AtStage(w', ToAdopt) {
        OthersStay(w, pid, chance, ToAdopt);
        NoneAppears(w.rows, w'.rows, organization, admin);
      }
    } else {
      if AtStage(w', ToReread) { OthersStay(w, pid, chance, ToReread); }
      if AtStage(w', ToInsert) { OthersStay(w, pid, chance, ToInsert); }
    }
  }

  lemma AdoptStepConverges(w: World, pid: Id, chance: Chance, organization: Id, admin: Admin)
    requires Converging(w, organization, admin) && Enabled(w, Statement(pid, chance)) && w.runs[pid].stage == ToAdopt
    ensures Converging(Fire(w, Statement(pid, chance)), organization, admin)
  {
    var w' := Fire(w, Statement(pid, chance));
    AdvanceKeepsLawful(w.rows, organization, admin, ToAdopt, chance);
    assert AtStage(w, ToAdopt);
    if HasAdoptable(w.rows, organization, admin) {
      assert LinkedTo(w'.rows[chance.pick], organization, admin.id);
      NoneAppears(w.rows, w'.rows, organization, admin);
      assert !HasAdoptable(w'.rows, organization, admin);
    } else {
      if AtStage(w', ToReread) { OthersStay(w, pid, chance, ToReread); }
    }
  }

  lemma InsertStepConverges(w: World, pid: Id, chance: Chance, organization: Id, admin: Admin)
    requires Converging(w, organization, admin) && Enabled(w, Statement(pid, chance)) && w.runs[pid].stage == ToInsert
    ensures Converging(Fire(w, Statement(pid, chance)), organization, admin)
  {
    var w' := Fire(w, Statement(pid, chance));
    AdvanceKeepsLawful(w.rows, organization, admin, ToInsert, chance);
    assert AtStage(w, ToInsert);
    if HasLinked(w.rows, organization, admin.id) {
      if AtStage(w', ToAdopt) { OthersStay(w, pid, chance, ToAdopt); }
    } else {
      assert LinkedTo(w'.rows[chance.newId], organization, admin.id);
      NoneAppears(w.rows, w'.rows, organization, admin);
    }
  }

  lemma LastStepsConverge(w: World, pid: Id, chance: Chance, organization: Id, admin: Admin)
    requires Converging(w, organization, admin) && Enabled(w, Statement(pid, chance)) && StepsLeft(w.runs[pid].stage) <= 2
    ensures Converging(Fire(w, Statement(pid, chance)), organization, admin)
  {
    var w' := Fire(w, Statement(pid, chance));
    if AtStage(w', ToAdopt) { OthersStay(w, pid, chance, ToAdopt); }
    if AtStage(w', ToInsert) { OthersStay(w, pid, chance, ToInsert); }
    if AtStage(w', ToReread) { OthersStay(w, pid, chance, ToReread); }
    assert w.runs[pid].stage == ToReread ==> AtStage(w, ToReread);
  }

  lemma StartConverges(w: World, pid: Id, organization: Id, admin: Admin)
    requires Converging(w, organization, admin) && Enabled(w, Start(pid, organization, admin))
    ensures Converging(Fire(w, Start(pid, organization, admin)), organization, admin)
  {
    var w' := Fire(w, Start(pid, organization, admin));
    forall stage | stage != ToLink && AtStage(w', stage)
      ensures AtStage(w, stage)
    {
      var q :| q in w'.runs && w'.runs[q].stage == stage;
      assert q in w.runs && w.runs[q].stage == stage;
    }
  }

  lemma ConnectConverges(w: World, event: Event, organization: Id, admin: Admin)
    requires Converging(w, organization, admin) && Enabled(w, event) && IsConnect(event, organization, admin)
    ensures Converging(Fire(w, event), organization, admin)
  {
    match event
    case Start(pid, _, _) => StartConverges(w, pid, organization, admin);
    case Statement(pid, chance) =>
      match w.runs[pid].stage
      case ToLink => LinkStepConverges(w, pid, chance, organization, admin);
      case ToAdopt => AdoptStepConverges(w, pid, chance, organization, admin);
      case ToInsert => InsertStepConverges(w, pid, chance, organization, admin);
      case _ => LastStepsConverge(w, pid, chance, organization, admin);
  }

  lemma {:induction false} ConnectsConverge(w: World, events: seq<Event>, organization: Id, admin: Admin)
    requires Converging(w, organization, admin) && CanRun(w, events)
    requires forall i :: 0 <= i < |events| ==> IsConnect(events[i], organization, admin)
    ensures Converging(Run(w, events), organization, admin)
    decreases |events|
  {
    if events != [] {
      ConnectConverges(w, events[0], organization, admin);
      ConnectsConverge(Fire(w, events[0]), events[1..], organization, admin);
    }
  }

  ghost predicate AreConnects(events: seq<Event>, organization: Id, admin: Admin) {
    forall i :: 0 <= i < |events| ==> IsConnect(events[i], organization, admin)
  }

  /** None of the runs has failed, and all that have returned gave the same seat. */
  ghost predicate AllOnOneSeat(w: World) {
    && (forall p :: p in w.runs ==> !w.runs[p].stage.Failed?)
    && (forall p, q :: p in w.runs && q in w.runs && w.runs[p].stage.Returned? && w.runs[q].stage.Returned?
          ==> w.runs[p].stage.id == w.runs[q].stage.id)
  }

  /** How many of the events are statements of that run. */
  function OwnSteps(events: seq<Event>, pid: Id): nat {
    if events == [] then 0
    else (if events[0].Statement? && events[0].pid == pid then 1 else 0) + OwnSteps(events[1..], pid)
  }

  lemma StatementsCount(w: World, event: Event, pid: Id)
    requires Enabled(w, event) && pid in w.runs
    ensures pid in Fire(w, event).runs
    ensures StepsLeft(Fire(w, event).runs[pid].stage) <= StepsLeft(w.runs[pid].stage)
    ensures event.Statement? && event.pid == pid && StepsLeft(w.runs[pid].stage) > 0 ==>
              StepsLeft(Fire(w, event).runs[pid].stage) < StepsLeft(w.runs[pid].stage)
  {
  }

  lemma {:induction false} StepsRunOut(w: World, events: seq<Event>, pid: Id)
    requires CanRun(w, events) && pid in w.runs
    ensures pid in Run(w, events).runs
    ensures var left := StepsLeft(Run(w, events).runs[pid].stage); left == 0 || left + OwnSteps(events, pid) <= StepsLeft(w.runs[pid].stage)
    decreases |events|
  {
    if events != [] {
      StatementsCount(w, events[0], pid);
      StepsRunOut(Fire(w, events[0]), events[1..], pid);
    }
  }

  lemma NotStarted(w: World, event: Event, pid: Id)
    requires Enabled(w, event) && pid !in w.runs
    ensures !(event.Statement? && event.pid == pid)
    ensures pid in Fire(w, event).runs ==> StepsLeft(Fire(w, event).runs[pid].stage) == 5
  {
  }

  /** Whatever else happens, a run is over after at most five statements of its own, and has one to make until then. */
  lemma {:induction false} RunsAreOverInFive(w: World, events: seq<Event>, pid: Id)
    requires CanRun(w, events) && pid !in w.runs && pid in Run(w, events).runs
    ensures OwnSteps(events, pid) >= 5 ==> StepsLeft(Run(w, events).runs[pid].stage) == 0
    decreases |events|
  {
    if events != [] {
      NotStarted(w, events[0], pid);
      var w1 := Fire(w, events[0]);
      if pid in w1.runs {
        StepsRunOut(w1, events[1..], pid);
      } else {
        RunsAreOverInFive(w1, events[1..], pid);
      }
    }
  }

  /** Nothing blocks a run: whatever stage it is at, its next statement can be made. */
  lemma RunsCanGoOn(w: World, pid: Id)
    requires Lawful(w.rows) && pid in w.runs
    ensures exists chance :: Enabled(w, Statement(pid, chance))
  {
    var chance := SomeChance(w.rows, w.runs[pid].organization, w.runs[pid].admin);
    assert Enabled(w, Statement(pid, chance));
  }

  /** Every run that has made five statements has returned a seat. */
  ghost predicate EachReturns(w: World, events: seq<Event>) {
    forall p :: p in w.runs && OwnSteps(events, p) >= 5 ==> w.runs[p].stage.Returned?
  }

  /** Two first connects at once, or any number, all end on the same seat, in every interleaving. */
  ghost predicate ConnectsSucceed(rows: Rows, organization: Id, admin: Admin) {
    forall events :: CanRun(Opened(rows), events) && AreConnects(events, organization, admin) ==>
      AllOnOneSeat(Run(Opened(rows), events)) && EachReturns(Run(Opened(rows), events), events)
  }

  lemma ConnectsAllSucceed(rows: Rows, events: seq<Event>, organization: Id, admin: Admin)
    requires Lawful(rows) && (HasLinked(rows, organization, admin.id) || CanBeSeated(rows, organization, admin))
    requires CanRun(Opened(rows), events) && AreConnects(events, organization, admin)
    ensures AllOnOneSeat(Run(Opened(rows), events)) && EachReturns(Run(Opened(rows), events), events)
  {
    ConnectsConverge(Opened(rows), events, organization, admin);
    var w := Run(Opened(rows), events);
    forall p | p in w.runs && OwnSteps(events, p) >= 5
      ensures w.runs[p].stage.Returned?
    {
      RunsAreOverInFive(Opened(rows), events, p);
    }
    forall p, q | p in w.runs && q in w.runs && w.runs[p].stage.Returned? && w.runs[q].stage.Returned?
      ensures w.runs[p].stage.id == w.runs[q].stage.id
    {
      RunsConvergeOnOneSeat(rows, events, p, q);
    }
  }

  // ---- and where a run fails ----

  ghost predicate SomeRunFails(rows: Rows, organization: Id, admin: Admin) {
    exists events :: CanRun(Opened(rows), events) && AreConnects(events, organization, admin) && AnyFailed(Run(Opened(rows), events))
  }

  predicate AnyFailed(w: World) {
    exists p :: p in w.runs && w.runs[p].stage.Failed?
  }

  lemma EventFirst(w: World, event: Event, events: seq<Event>)
    requires Enabled(w, event) && CanRun(Fire(w, event), events)
    ensures CanRun(w, [event] + events) && Run(w, [event] + events) == Run(Fire(w, event), events)
  {
    assert ([event] + events)[1..] == events;
  }

  /** A run of connects from some world on that ends with one failed. */
  ghost predicate Fails(w: World, events: seq<Event>, organization: Id, admin: Admin) {
    CanRun(w, events) && AreConnects(events, organization, admin) && AnyFailed(Run(w, events))
  }

  lemma FailsBefore(w: World, event: Event, events: seq<Event>, organization: Id, admin: Admin)
    requires Enabled(w, event) && IsConnect(event, organization, admin) && Fails(Fire(w, event), events, organization, admin)
    ensures Fails(w, [event] + events, organization, admin)
  {
    EventFirst(w, event, events);
  }

  /** Run p, and run q when there are two, at those stages. */
  function Two(rows: Rows, organization: Id, admin: Admin, stage: Stage, stage': Stage): World {
    World(rows, map[1 := Attempt(organization, admin, stage, false), 2 := Attempt(organization, admin, stage', false)])
  }

  /**
   * With two records to adopt, both runs can find nothing linked; then one adopts a record, and the
   * other, adopting the next, breaks the unique index.
   */
  lemma TwoRecordsFailOne(rows: Rows, organization: Id, admin: Admin)
    requires Lawful(rows) && !HasLinked(rows, organization, admin.id) && !AtMostOneAdoptable(rows, organization, admin)
    ensures SomeRunFails(rows, organization, admin)
  {
    var chance := SomeChance(rows, organization, admin);
    var rows' := Advance(rows, organization, admin, ToAdopt, chance).0;
    SecondStaysAdoptable(rows, organization, admin, chance);
    AdvanceKeepsLawful(rows, organization, admin, ToAdopt, chance);
    var chance' := SomeChance(rows', organization, admin);
    var w5 := Two(rows', organization, admin, ToFetch(chance.pick), ToAdopt);
    var w6 := Fire(w5, Statement(2, chance'));
    assert w6.runs[2].stage == Failed;
    var events := [Statement(2, chance')];
    assert Run(w5, events) == Run(w6, events[1..]) == w6;
    assert Fails(w5, events, organization, admin);
    var w4 := Two(rows, organization, admin, ToAdopt, ToAdopt);
    assert Fire(w4, Statement(1, chance)) == w5;
    FailsBefore(w4, Statement(1, chance), events, organization, admin);
    BothFindNothing(rows, organization, admin, chance, [Statement(1, chance)] + events);
  }

  lemma BothFindNothing(rows: Rows, organization: Id, admin: Admin, chance: Chance, events: seq<Event>)
    requires Lawful(rows) && !HasLinked(rows, organization, admin.id)
    requires Fails(Two(rows, organization, admin, ToAdopt, ToAdopt), events, organization, admin)
    ensures SomeRunFails(rows, organization, admin)
  {
    var w2, w3 := Two(rows, organization, admin, ToLink, ToLink), Two(rows, organization, admin, ToAdopt, ToLink);
    assert Fire(w3, Statement(2, chance)) == Two(rows, organization, admin, ToAdopt, ToAdopt);
    FailsBefore(w3, Statement(2, chance), events, organization, admin);
    var events3 := [Statement(2, chance)] + events;
    assert Fire(w2, Statement(1, chance)) == w3;
    FailsBefore(w2, Statement(1, chance), events3, organization, admin);
    FailsFromTwo(rows, organization, admin, [Statement(1, chance)] + events3);
  }

  lemma FailsFromTwo(rows: Rows, organization: Id, admin: Admin, events: seq<Event>)
    requires Fails(Two(rows, organization, admin, ToLink, ToLink), events, organization, admin)
    ensures SomeRunFails(rows, organization, admin)
  {
    var w1 := One(rows, organization, admin, ToLink);
    assert Fire(w1, Start(2, organization, admin)) == Two(rows, organization, admin, ToLink, ToLink);
    FailsBefore(w1, Start(2, organization, admin), events, organization, admin);
    FailsFromStart(rows, organization, admin, [Start(2, organization, admin)] + events);
  }

  lemma SomeChance(rows: Rows, organization: Id, admin: Admin) returns (chance: Chance)
    ensures chance.newId !in rows
    ensures HasAdoptable(rows, organization, admin) ==> IsOldestAdoptable(rows, organization, admin, chance.pick)
  {
    var newId := FreshId(rows.Keys);
    var pick := 0;
    if HasAdoptable(rows, organization, admin) {
      HasOldest(rows, organization, admin);
      pick :| IsOldestAdoptable(rows, organization, admin, pick);
    }
    chance := Chance(0, pick, newId);
  }

  lemma {:induction false} FreshId(ids: set<Id>) returns (id: Id)
    ensures forall j :: j in ids ==> j < id
    decreases |ids|
  {
    id := 0;
    if some :| some in ids {
      var rest := ids - {some};
      var above := FreshId(rest);
      id := if above <= some then some + 1 else above;
      assert forall j :: j in ids ==> j == some || j in rest;
    }
  }

  lemma SecondStaysAdoptable(rows: Rows, organization: Id, admin: Admin, chance: Chance)
    requires Lawful(rows) && !HasLinked(rows, organization, admin.id) && !AtMostOneAdoptable(rows, organization, admin)
    requires IsOldestAdoptable(rows, organization, admin, chance.pick)
    ensures var rows' := Advance(rows, organization, admin, ToAdopt, chance).0;
            HasAdoptable(rows', organization, admin) && HasLinked(rows', organization, admin.id)
  {
    var rows' := Advance(rows, organization, admin, ToAdopt, chance).0;
    var i, j :| i in rows && j in rows && Adoptable(rows[i], organization, admin) && Adoptable(rows[j], organization, admin) && i != j;
    var other := if i == chance.pick then j else i;
    assert rows'[other] == rows[other];
    assert LinkedTo(rows'[chance.pick], organization, admin.id);
  }

  /** With nothing to adopt and somebody else's record under the seat's code, each stage only leads to the next. */
  lemma NextStage(rows: Rows, organization: Id, admin: Admin, chance: Chance, stage: Stage, next: Stage)
    requires Lawful(rows) && !HasLinked(rows, organization, admin.id) && !HasAdoptable(rows, organization, admin)
    requires HasCode(rows, organization, SeatCode(admin.id)) && chance.newId !in rows
    requires (stage, next) in {(ToLink, ToAdopt), (ToAdopt, ToInsert), (ToInsert, ToReread), (ToReread, Failed)}
    ensures Enabled(One(rows, organization, admin, stage), Statement(1, chance))
    ensures Fire(One(rows, organization, admin, stage), Statement(1, chance)) == One(rows, organization, admin, next)
  {
  }

  lemma FailsAt(rows: Rows, organization: Id, admin: Admin, chance: Chance, stage: Stage, next: Stage, events: seq<Event>)
    requires Lawful(rows) && !HasLinked(rows, organization, admin.id) && !HasAdoptable(rows, organization, admin)
    requires HasCode(rows, organization, SeatCode(admin.id)) && chance.newId !in rows
    requires (stage, next) in {(ToLink, ToAdopt), (ToAdopt, ToInsert), (ToInsert, ToReread), (ToReread, Failed)}
    requires Fails(One(rows, organization, admin, next), events, organization, admin)
    ensures Fails(One(rows, organization, admin, stage), [Statement(1, chance)] + events, organization, admin)
  {
    NextStage(rows, organization, admin, chance, stage, next);
    FailsBefore(One(rows, organization, admin, stage), Statement(1, chance), events, organization, admin);
  }

  lemma TakenCodeFails(rows: Rows, organization: Id, admin: Admin)
    requires Lawful(rows) && !HasLinked(rows, organization, admin.id) && !HasAdoptable(rows, organization, admin)
    requires HasCode(rows, organization, SeatCode(admin.id))
    ensures SomeRunFails(rows, organization, admin)
  {
    var chance := SomeChance(rows, organization, admin);
    var failed := One(rows, organization, admin, Failed);
    assert failed.runs[1].stage.Failed?;
    assert Fails(failed, [], organization, admin);
    var last := [Statement(1, chance)] + [];
    FailsAt(rows, organization, admin, chance, ToReread, Failed, []);
    FailsAt(rows, organization, admin, chance, ToInsert, ToReread, last);
    FailsAt(rows, organization, admin, chance, ToAdopt, ToInsert, [Statement(1, chance)] + last);
    var most := [Statement(1, chance)] + ([Statement(1, chance)] + last);
    FailsAt(rows, organization, admin, chance, ToLink, ToAdopt, most);
    FailsFromStart(rows, organization, admin, [Statement(1, chance)] + most);
  }

  lemma FailsFromStart(rows: Rows, organization: Id, admin: Admin, events: seq<Event>)
    requires Fails(One(rows, organization, admin, ToLink), events, organization, admin)
    ensures SomeRunFails(rows, organization, admin)
  {
    assert Fire(Opened(rows), Start(1, organization, admin)) == One(rows, organization, admin, ToLink);
    FailsBefore(Opened(rows), Start(1, organization, admin), events, organization, admin);
  }

  function One(rows: Rows, organization: Id, admin: Admin, stage: Stage): World {
    World(rows, map[1 := Attempt(organization, admin, stage, false)])
  }

  /**
   * First connects at once all end on the same seat, in every interleaving, each returning by its
   * fifth statement, exactly when the admin is linked already, or has at most one record to adopt and, without any, a free code for a seat.
   * Otherwise some interleaving makes one of them fail.
   */
  lemma FirstConnectsAllSucceedExactly(rows: Rows, organization: Id, admin: Admin)
    requires Lawful(rows)
    ensures ConnectsSucceed(rows, organization, admin) <==>
            || !NobodyLinked(rows, organization, admin.id)
            || ((forall i, j | i in rows && j in rows && i != j ::
                   !IsHireWithEmail(rows[i], organization, admin.email) || !IsHireWithEmail(rows[j], organization, admin.email))
                && (!NoHire(rows, organization, admin.email) || CodeIsFree(rows, organization, admin.id)))
    ensures !ConnectsSucceed(rows, organization, admin) ==> SomeRunFails(rows, organization, admin)
  {
    LinkedMeans(rows, organization, admin.id);
    AdoptableMeans(rows, organization, admin);
    CodeMeans(rows, organization, admin.id);
    if HasLinked(rows, organization, admin.id) || CanBeSeated(rows, organization, admin) {
      forall events | CanRun(Opened(rows), events) && AreConnects(events, organization, admin)
        ensures AllOnOneSeat(Run(Opened(rows), events)) && EachReturns(Run(Opened(rows), events), events)
      {
        ConnectsAllSucceed(rows, events, organization, admin);
      }
    } else if !AtMostOneAdoptable(rows, organization, admin) {
      TwoRecordsFailOne(rows, organization, admin);
    } else {
      TakenCodeFails(rows, organization, admin);
    }
  }
}
