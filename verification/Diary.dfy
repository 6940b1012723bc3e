/**
 * The appointment diary (packages/db/src/bookings.ts over the table of migration
 * 031-bookings.sql): what one statement does to the tables, the three operations as
 * sequences of statements, and every interleaving of them.
 */
module Diary {
  import opened Prelude
  import opened Rota

  const MAX_DURATION_MS: int := 8 * 60 * 60_000

  datatype Status = Confirmed | Cancelled | Completed | NoShow

  datatype Booking = Booking(
    organizationId: Id,
    contactId: Id,
    employeeId: Option<Id>,
    conversationId: Option<Id>,
    startsAt: int,
    endsAt: int,
    status: Status)

  datatype Conversation = Conversation(organizationId: Id, routedOrganizationId: Option<Id>, contactId: Option<Id>)

  datatype Database = Database(
    employees: map<Id, Employee>,
    conversations: map<Id, Conversation>,
    bookings: map<Id, Booking>)

  datatype Refusal =
    | UnreadableStart | UnreadableEnd | EndsBeforeStart | TooLong
    | NoConversation | NoBusiness | NoContact
    | NotTheirEmployee | EmployeeGone | SlotTaken

  datatype Outcome = Written(id: Id) | NoRow | Refused(reason: Refusal)

  // ---- the table and its constraints ----

  /** Half-open ranges meet: the `&&` of tstzrange, and `overlaps` of the slot search. */
  predicate Overlap(start: int, end: int, start': int, end': int) {
    start < end' && start' < end
  }

  /** The row takes up the employee's time: it is in the exclusion constraint. */
  predicate Holds(b: Booking, employee: Id) {
    b.status == Confirmed && b.employeeId == Some(employee)
  }

  predicate BookingsOverlap(b: Booking, b': Booking) {
    Overlap(b.startsAt, b.endsAt, b'.startsAt, b'.endsAt)
  }

  /** The employee has a confirmed appointment, other than row `except`, that meets the range. */
  predicate Busy(bookings: map<Id, Booking>, employee: Id, start: int, end: int, except: Option<Id>) {
    exists k :: k in bookings && Some(k) != except && Holds(bookings[k], employee)
      && Overlap(bookings[k].startsAt, bookings[k].endsAt, start, end)
  }

  /** What bookings_no_double_booking refuses. */
  predicate Clashes(bookings: map<Id, Booking>, id: Id, b: Booking) {
    b.status == Confirmed && b.employeeId.Some? && Busy(bookings, b.employeeId.value, b.startsAt, b.endsAt, Some(id))
  }

  /** One insert or update statement on the bookings table: its new table, or its refusal. */
  function WriteRow(db: Database, id: Id, b: Booking): Result<Database, Refusal> {
    if b.employeeId.Some? && b.employeeId.value !in db.employees then Err(EmployeeGone)
    else if Clashes(db.bookings, id, b) then Err(SlotTaken)
    else Ok(db.(bookings := db.bookings[id := b]))
  }

  ghost predicate NoDoubleBooking(bookings: map<Id, Booking>) {
    forall i, j, e :: i in bookings && j in bookings && i != j && Holds(bookings[i], e) && Holds(bookings[j], e)
      ==> !BookingsOverlap(bookings[i], bookings[j])
  }

  predicate ProperTimes(b: Booking) {
    b.startsAt < b.endsAt <= b.startsAt + MAX_DURATION_MS
  }

  predicate OwnStaff(employees: map<Id, Employee>, b: Booking) {
    b.employeeId.Some? ==>
      b.employeeId.value in employees && employees[b.employeeId.value].organizationId == b.organizationId
  }

  predicate NotOthersStaff(employees: map<Id, Employee>, b: Booking) {
    b.employeeId.Some? && b.employeeId.value in employees ==> employees[b.employeeId.value].organizationId == b.organizationId
  }

  ghost predicate Sound(db: Database) {
    && (forall i :: i in db.bookings ==> ProperTimes(db.bookings[i]) && OwnStaff(db.employees, db.bookings[i]))
    && NoDoubleBooking(db.bookings)
    && (forall e :: e in db.employees ==> db.employees[e].id == e)
  }

  // ---- the operations as statements ----

  /** Date.parse gives None for a text it cannot read. */
  datatype CreateInput = CreateInput(
    organizationId: Option<Id>,
    conversationId: Option<Id>,
    contactId: Option<Id>,
    employeeId: Option<Id>,
    startsAt: Option<int>,
    endsAt: Option<int>)

  /** Where an operation has got to. Each stage but the last runs one statement. */
  datatype Task =
    | CreateBegin(input: CreateInput)
    | CreateCheck(row: Booking)
    | CreateInsert(row: Booking)
    | StatusUpdate(bookingId: Id, status: Status, within: Option<Id>)
    | AssignCheck(bookingId: Id, employeeId: Option<Id>, within: Option<Id>)
    | AssignUpdate(bookingId: Id, employeeId: Option<Id>, within: Option<Id>)
    | Finished(outcome: Outcome)

  function TimesProblem(input: CreateInput): Option<Refusal> {
    if input.startsAt.None? then Some(UnreadableStart)
    else if input.endsAt.None? then Some(UnreadableEnd)
    else if input.endsAt.value <= input.startsAt.value then Some(EndsBeforeStart)
    else if input.endsAt.value - input.startsAt.value > MAX_DURATION_MS then Some(TooLong)
    else None
  }

  /** The business and contact the booking is for: the conversation's serving business decides. */
  function Parties(db: Database, input: CreateInput): Result<(Id, Id), Refusal> {
    if input.conversationId.Some? && input.conversationId.value !in db.conversations then Err(NoConversation)
    else
      var organization :=
        if input.conversationId.None? then input.organizationId
        else
          var c := db.conversations[input.conversationId.value];
          if c.routedOrganizationId.Some? then c.routedOrganizationId else Some(c.organizationId);
      var contact :=
        if input.contactId.Some? || input.conversationId.None? then input.contactId
        else db.conversations[input.conversationId.value].contactId;
      if organization.None? then Err(NoBusiness)
      else if contact.None? then Err(NoContact)
      else Ok((organization.value, contact.value))
  }

  predicate WorksFor(db: Database, employee: Id, organization: Id) {
    employee in db.employees && db.employees[employee].organizationId == organization && db.employees[employee].isActive
  }

  function NewRow(input: CreateInput, organization: Id, contact: Id): Booking
    requires input.startsAt.Some? && input.endsAt.Some?
  {
    Booking(organization, contact, input.employeeId, input.conversationId, input.startsAt.value, input.endsAt.value, Confirmed)
  }

  predicate Visible(db: Database, id: Id, within: Option<Id>) {
    id in db.bookings && (within.None? || db.bookings[id].organizationId == within.value)
  }

  /** A write that failed leaves the tables as they were. */
  function Write(db: Database, id: Id, b: Booking): (Database, Outcome) {
    match WriteRow(db, id, b)
    case Ok(db') => (db', Written(id))
    case Err(e) => (db, Refused(e))
  }

  /** The next statement of an operation. `newId` is the id an insert would be given. */
  function Advance(db: Database, task: Task, newId: Id): (Database, Task) {
    match task
    case CreateBegin(input) =>
      (match TimesProblem(input)
       case Some(problem) => (db, Finished(Refused(problem)))
       case None =>
         match Parties(db, input)
         case Err(e) => (db, Finished(Refused(e)))
         case Ok((organization, contact)) => (db, CreateCheck(NewRow(input, organization, contact))))
    case CreateCheck(row) =>
      if row.employeeId.Some? && !WorksFor(db, row.employeeId.value, row.organizationId)
      then (db, Finished(Refused(NotTheirEmployee)))
      else (db, CreateInsert(row))
    case CreateInsert(row) =>
      var (db', outcome) := Write(db, newId, row);
      (db', Finished(outcome))
    case StatusUpdate(id, status, within) =>
      if !Visible(db, id, within) || db.bookings[id].status == status then (db, Finished(NoRow))
      else
        var (db', outcome) := Write(db, id, db.bookings[id].(status := status));
        (db', Finished(outcome))
    case AssignCheck(id, employee, within) =>
      if employee.Some? && !(id in db.bookings && WorksFor(db, employee.value, db.bookings[id].organizationId))
      then (db, Finished(Refused(NotTheirEmployee)))
      else (db, AssignUpdate(id, employee, within))
    case AssignUpdate(id, employee, within) =>
      if !Visible(db, id, within) then (db, Finished(NoRow))
      else
        var (db', outcome) := Write(db, id, db.bookings[id].(employeeId := employee));
        (db', Finished(outcome))
    case Finished(_) => (db, task)
  }

  function StepsLeft(task: Task): nat {
    match task
    case CreateBegin(_) => 3
    case CreateCheck(_) => 2
    case AssignCheck(_, _, _) => 2
    case Finished(_) => 0
    case _ => 1
  }

  /** The operation run on its own, with nothing between its statements. */
  function RunAlone(db: Database, task: Task, newId: Id): (Database, Outcome)
    decreases StepsLeft(task)
  {
    if task.Finished? then (db, task.outcome)
    else
      var (db', task') := Advance(db, task, newId);
      RunAlone(db', task', newId)
  }

  // ---- what one operation does when it runs alone ----

  /** Another confirmed appointment of that person, not row `except`, begins before the span ends and ends after it begins. */
  ghost predicate IsTaken(bookings: map<Id, Booking>, employee: Option<Id>, start: int, end: int, except: Option<Id>) {
    && employee.Some?
    && (exists k :: k in bookings && Some(k) != except && bookings[k].status == Confirmed && bookings[k].employeeId == employee
                    && bookings[k].startsAt < end && start < bookings[k].endsAt)
  }

  lemma BusyIsTaken(bookings: map<Id, Booking>, employee: Id, start: int, end: int, except: Option<Id>)
    ensures Busy(bookings, employee, start, end, except) <==> IsTaken(bookings, Some(employee), start, end, except)
  {
    if IsTaken(bookings, Some(employee), start, end, except) {
      var k :| k in bookings && Some(k) != except && bookings[k].status == Confirmed && bookings[k].employeeId == Some(employee)
               && bookings[k].startsAt < end && start < bookings[k].endsAt;
      assert Holds(bookings[k], employee);
    }
  }

  lemma ClashIsTaken(bookings: map<Id, Booking>, id: Id, b: Booking)
    ensures Clashes(bookings, id, b) <==> b.status == Confirmed && IsTaken(bookings, b.employeeId, b.startsAt, b.endsAt, Some(id))
  {
    if b.employeeId.Some? {
      BusyIsTaken(bookings, b.employeeId.value, b.startsAt, b.endsAt, Some(id));
    }
  }

  /** An active person of that business, by the employees table. */
  predicate IsStaffOf(employees: map<Id, Employee>, employee: Id, organization: Id) {
    employee in employees && employees[employee].isActive && employees[employee].organizationId == organization
  }

  /** Everything a booking needs, in the caller's terms. */
  ghost predicate Bookable(db: Database, input: CreateInput, row: Booking) {
    && input.startsAt == Some(row.startsAt) && input.endsAt == Some(row.endsAt)
    && row.startsAt < row.endsAt && row.endsAt - row.startsAt <= 28_800_000
    && (match input.conversationId
        case None => input.organizationId == Some(row.organizationId) && input.contactId == Some(row.contactId)
        case Some(c) =>
          && c in db.conversations
          && row.organizationId == (match db.conversations[c].routedOrganizationId
                                    case Some(serving) => serving
                                    case None => db.conversations[c].organizationId)
          && Some(row.contactId) == if input.contactId.Some? then input.contactId else db.conversations[c].contactId)
    && row.conversationId == input.conversationId && row.employeeId == input.employeeId && row.status == Confirmed
    && (row.employeeId.Some? ==> IsStaffOf(db.employees, row.employeeId.value, row.organizationId))
  }

  predicate WorksForRow(db: Database, row: Booking) {
    row.employeeId.Some? ==> WorksFor(db, row.employeeId.value, row.organizationId)
  }

  lemma CreateFromCheck(db: Database, row: Booking, newId: Id)
    ensures RunAlone(db, CreateCheck(row), newId)
         == if WorksForRow(db, row) then Write(db, newId, row) else (db, Refused(NotTheirEmployee))
  {
    var (db', task') := Advance(db, CreateCheck(row), newId);
    if task'.CreateInsert? {
      var (db'', task'') := Advance(db', task', newId);
      assert RunAlone(db'', task'', newId) == (db'', task''.outcome);
    }
  }

  /**
   * createBooking adds exactly the row asked for when everything it needs is there and nobody
   * holds the time; is refused as taken when only the time is missing; and otherwise is
   * refused for another reason. Only the first changes a table.
   */
  lemma CreateAlone(db: Database, input: CreateInput, newId: Id, row: Booking)
    requires newId !in db.bookings
    ensures var (db', outcome) := RunAlone(db, CreateBegin(input), newId);
            && (Bookable(db, input, row) && !IsTaken(db.bookings, row.employeeId, row.startsAt, row.endsAt, None)
                ==> outcome == Written(newId) && db' == db.(bookings := db.bookings[newId := row]))
            && (Bookable(db, input, row) && IsTaken(db.bookings, row.employeeId, row.startsAt, row.endsAt, None)
                ==> outcome == Refused(SlotTaken))
            && (outcome == Refused(SlotTaken) ==>
                  exists r :: Bookable(db, input, r) && IsTaken(db.bookings, r.employeeId, r.startsAt, r.endsAt, None))
            && (outcome.Written? ==>
                  exists r :: Bookable(db, input, r) && !IsTaken(db.bookings, r.employeeId, r.startsAt, r.endsAt, None))
            && (!outcome.Written? ==> db' == db)
  {
    if TimesProblem(input).None? && Parties(db, input).Ok? {
      var (organization, contact) := Parties(db, input).value;
      var r := NewRow(input, organization, contact);
      CreateFromCheck(db, r, newId);
      ClashIsTaken(db.bookings, newId, r);
      assert IsTaken(db.bookings, r.employeeId, r.startsAt, r.endsAt, Some(newId))
        <==> IsTaken(db.bookings, r.employeeId, r.startsAt, r.endsAt, None);
      assert WorksForRow(db, r) <==> Bookable(db, input, r);
      assert Bookable(db, input, row) ==> r == row;
    } else {
      assert !Bookable(db, input, row);
    }
  }

  /** What else createBooking is refused for, and in which order it looks. */
  lemma CreateRefusesInOrder(db: Database, input: CreateInput, newId: Id)
    ensures var refusal := RunAlone(db, CreateBegin(input), newId).1;
            && (input.startsAt.None? ==> refusal == Refused(UnreadableStart))
            && (input.startsAt.Some? && input.endsAt.None? ==> refusal == Refused(UnreadableEnd))
            && (input.startsAt.Some? && input.endsAt.Some? ==>
                  var length := input.endsAt.value - input.startsAt.value;
                  && (length <= 0 ==> refusal == Refused(EndsBeforeStart))
                  && (length > 28_800_000 ==> refusal == Refused(TooLong))
                  && (0 < length <= 28_800_000 && input.conversationId.Some? && input.conversationId.value !in db.conversations
                      ==> refusal == Refused(NoConversation))
                  && (0 < length <= 28_800_000 && input.conversationId.None? && input.organizationId.None?
                      ==> refusal == Refused(NoBusiness))
                  && (0 < length <= 28_800_000 && input.contactId.None?
                      && (input.conversationId.None? ==> input.organizationId.Some?)
                      && (input.conversationId.Some? ==> input.conversationId.value in db.conversations
                                                         && db.conversations[input.conversationId.value].contactId.None?)
                      ==> refusal == Refused(NoContact)))
  {
    assert Advance(db, CreateBegin(input), newId).1.Finished?
           ==> RunAlone(db, CreateBegin(input), newId).1 == Advance(db, CreateBegin(input), newId).1.outcome;
  }

  /** And it is refused as not their employee when only the person is wrong. */
  lemma CreateNeedsTheirEmployee(db: Database, input: CreateInput, newId: Id, row: Booking, employee: Id)
    requires input.employeeId == Some(employee) && Bookable(db, input.(employeeId := None), row)
    requires !IsStaffOf(db.employees, employee, row.organizationId)
    ensures RunAlone(db, CreateBegin(input), newId) == (db, Refused(NotTheirEmployee))
  {
    var r := row.(employeeId := Some(employee));
    assert Advance(db, CreateBegin(input), newId) == (db, CreateCheck(r));
    CreateFromCheck(db, r, newId);
  }

  /** A status change touches that one row's status, and is refused only for a clash. */
  lemma SetStatusAlone(db: Database, id: Id, status: Status, within: Option<Id>, newId: Id)
    requires Sound(db)
    ensures var (db', outcome) := RunAlone(db, StatusUpdate(id, status, within), newId);
            if id !in db.bookings || (within.Some? && db.bookings[id].organizationId != within.value) || db.bookings[id].status == status
            then outcome == NoRow && db' == db
            else
              var b := db.bookings[id];
              if status == Confirmed && IsTaken(db.bookings, b.employeeId, b.startsAt, b.endsAt, Some(id))
              then outcome == Refused(SlotTaken) && db' == db
              else outcome == Written(id) && db' == db.(bookings := db.bookings[id := b.(status := status)])
  {
    var (db', task') := Advance(db, StatusUpdate(id, status, within), newId);
    if id in db.bookings {
      ClashIsTaken(db.bookings, id, db.bookings[id].(status := status));
    }
    assert RunAlone(db', task', newId) == (db', task'.outcome);
  }

  /** An assignment needs the person to work for the booking's business and to be free then. */
  lemma AssignAlone(db: Database, id: Id, employee: Option<Id>, within: Option<Id>, newId: Id)
    ensures var (db', outcome) := RunAlone(db, AssignCheck(id, employee, within), newId);
            if employee.Some? && !(id in db.bookings && IsStaffOf(db.employees, employee.value, db.bookings[id].organizationId))
            then outcome == Refused(NotTheirEmployee) && db' == db
            else if id !in db.bookings || (within.Some? && db.bookings[id].organizationId != within.value)
            then outcome == NoRow && db' == db
            else
              var b := db.bookings[id];
              if b.status == Confirmed && IsTaken(db.bookings, employee, b.startsAt, b.endsAt, Some(id))
              then outcome == Refused(SlotTaken) && db' == db
              else outcome == Written(id) && db' == db.(bookings := db.bookings[id := b.(employeeId := employee)])
  {
    var (db1, task1) := Advance(db, AssignCheck(id, employee, within), newId);
    if id in db.bookings {
      ClashIsTaken(db.bookings, id, db.bookings[id].(employeeId := employee));
    }
    if task1.AssignUpdate? {
      var (db2, task2) := Advance(db1, task1, newId);
      assert RunAlone(db2, task2, newId) == (db2, task2.outcome);
    }
  }

  // ---- the rows, instant by instant ----

  /** The appointment is going on at that instant. */
  predicate GoesOn(b: Booking, t: int) {
    b.startsAt <= t < b.endsAt
  }

  ghost predicate SharesAnInstant(b: Booking, start: int, end: int) {
    exists t :: GoesOn(b, t) && start <= t < end
  }

  lemma MeetingIsSharing(b: Booking, start: int, end: int)
    requires b.startsAt < b.endsAt && start < end
    ensures SharesAnInstant(b, start, end) <==> b.startsAt < end && start < b.endsAt
  {
    if b.startsAt < end && start < b.endsAt {
      assert GoesOn(b, if b.startsAt < start then start else b.startsAt);
    }
  }

  /**
   * A booking that has all it needs is refused as taken exactly when a confirmed appointment of the
   * person shares an instant with it, and written otherwise: appointments back to back are.
   */
  lemma CreateIsRefusedForASharedInstant(db: Database, input: CreateInput, newId: Id, row: Booking)
    requires Sound(db) && newId !in db.bookings && Bookable(db, input, row)
    ensures RunAlone(db, CreateBegin(input), newId).1
         == if exists k :: k in db.bookings && db.bookings[k].status == Confirmed && row.employeeId.Some?
                           && db.bookings[k].employeeId == row.employeeId && SharesAnInstant(db.bookings[k], row.startsAt, row.endsAt)
            then Refused(SlotTaken) else Written(newId)
  {
    CreateAlone(db, input, newId, row);
    forall k | k in db.bookings
      ensures SharesAnInstant(db.bookings[k], row.startsAt, row.endsAt)
         <==> db.bookings[k].startsAt < row.endsAt && row.startsAt < db.bookings[k].endsAt
    {
      assert ProperTimes(db.bookings[k]);
      MeetingIsSharing(db.bookings[k], row.startsAt, row.endsAt);
    }
  }

  /** At no instant do two confirmed appointments of one person go on. */
  ghost predicate NobodyIsInTwoPlaces(bookings: map<Id, Booking>) {
    forall i, j, t :: i in bookings && j in bookings && i != j && GoesOn(bookings[i], t) && GoesOn(bookings[j], t)
      && bookings[i].status == Confirmed && bookings[j].status == Confirmed && bookings[i].employeeId.Some?
      ==> bookings[i].employeeId != bookings[j].employeeId
  }

  /** Every appointment ends after it starts, within eight hours, and is with one of its own business's people. */
  ghost predicate AppointmentsAreOwn(db: Database) {
    forall i :: i in db.bookings ==>
      var b := db.bookings[i];
      && b.startsAt < b.endsAt && b.endsAt - b.startsAt <= 28_800_000
      && (b.employeeId.Some? ==> b.employeeId.value in db.employees
                                 && db.employees[b.employeeId.value].organizationId == b.organizationId)
  }

  /** What soundness is, instant by instant. */
  lemma SoundMeans(db: Database)
    ensures Sound(db) <==> NobodyIsInTwoPlaces(db.bookings) && AppointmentsAreOwn(db)
                           && forall e :: e in db.employees ==> db.employees[e].id == e
  {
    if AppointmentsAreOwn(db) {
      ApartMeans(db);
    }
    if Sound(db) {
      forall i | i in db.bookings
        ensures ProperTimes(db.bookings[i]) && OwnStaff(db.employees, db.bookings[i])
      {
      }
    }
  }

  lemma OverlapIsSharing(a: Booking, b: Booking)
    requires a.startsAt < a.endsAt && b.startsAt < b.endsAt
    ensures BookingsOverlap(a, b) <==> exists t :: GoesOn(a, t) && GoesOn(b, t)
  {
    var later := if a.startsAt < b.startsAt then b.startsAt else a.startsAt;
    assert BookingsOverlap(a, b) ==> GoesOn(a, later) && GoesOn(b, later);
  }

  lemma ApartMeans(db: Database)
    requires AppointmentsAreOwn(db)
    ensures NoDoubleBooking(db.bookings) <==> NobodyIsInTwoPlaces(db.bookings)
  {
    var bookings := db.bookings;
    if NoDoubleBooking(bookings) {
      forall i, j, t | i in bookings && j in bookings && i != j && GoesOn(bookings[i], t) && GoesOn(bookings[j], t)
                       && bookings[i].status == Confirmed && bookings[j].status == Confirmed && bookings[i].employeeId.Some?
        ensures bookings[i].employeeId != bookings[j].employeeId
      {
        var e := bookings[i].employeeId.value;
        assert Holds(bookings[i], e);
      }
    }
    if NobodyIsInTwoPlaces(bookings) {
      forall i, j, e | i in bookings && j in bookings && i != j && Holds(bookings[i], e) && Holds(bookings[j], e)
        ensures !BookingsOverlap(bookings[i], bookings[j])
      {
        OverlapIsSharing(bookings[i], bookings[j]);
      }
    }
  }

  // ---- every interleaving ----

  /** An operation somebody asked for, and the stage it is at. */
  datatype Process = Process(request: Task, now: Task)

  /**
   * `business` is every employee id ever issued with its business, `issued` every booking id
   * ever issued, and `touched` the bookings changed or removed after they were made.
   */
  datatype World = World(
    db: Database,
    business: map<Id, Id>,
    issued: set<Id>,
    touched: set<Id>,
    processes: map<Id, Process>)

  datatype Event =
    | Begin(pid: Id, request: Task)
    | Statement(pid: Id, newId: Id)
    | AddEmployee(employee: Employee)
    | EditEmployee(employee: Employee)
    | RemoveEmployee(id: Id)
    | PutConversation(id: Id, conversation: Conversation)
    | RemoveBookings(ids: set<Id>)

  function Opened(db: Database): World {
    World(db, map e | e in db.employees :: db.employees[e].organizationId, db.bookings.Keys, {}, map[])
  }

  predicate CanStep(w: World, pid: Id, newId: Id) {
    pid in w.processes && !w.processes[pid].now.Finished? && newId !in w.issued
  }

  /** Ids are uuids: none is issued twice. An employee record never moves to another business. */
  predicate Enabled(w: World, event: Event) {
    match event
    case Begin(pid, request) =>
      pid !in w.processes && (request.CreateBegin? || request.StatusUpdate? || request.AssignCheck?)
    case Statement(pid, newId) => CanStep(w, pid, newId)
    case AddEmployee(e) => e.id !in w.business
    case EditEmployee(e) => e.id in w.db.employees && e.organizationId == w.db.employees[e.id].organizationId
    case RemoveEmployee(id) => id in w.db.employees
    case PutConversation(_, _) => true
    case RemoveBookings(_) => true
  }

  function Unassigned(b: Booking, employee: Id): Booking {
    if b.employeeId == Some(employee) then b.(employeeId := None) else b
  }

  function RunStatement(w: World, pid: Id, newId: Id): World
    requires CanStep(w, pid, newId)
  {
    var task := w.processes[pid].now;
    var (db', task') := Advance(w.db, task, newId);
    w.(db := db',
       issued := w.issued + db'.bookings.Keys,
       touched := if !task.CreateInsert? && task'.Finished? && task'.outcome.Written? then w.touched + {task'.outcome.id} else w.touched,
       processes := w.processes[pid := w.processes[pid].(now := task')])
  }

  function Fire(w: World, event: Event): World
    requires Enabled(w, event)
  {
    match event
    case Begin(pid, request) => w.(processes := w.processes[pid := Process(request, request)])
    case Statement(pid, newId) => RunStatement(w, pid, newId)
    case AddEmployee(e) =>
      w.(db := w.db.(employees := w.db.employees[e.id := e]), business := w.business[e.id := e.organizationId])
    case EditEmployee(e) => w.(db := w.db.(employees := w.db.employees[e.id := e]))
    case RemoveEmployee(id) =>
      // "on delete set null": the person's appointments stay, with nobody on them.
      w.(db := w.db.(employees := w.db.employees - {id},
                     bookings := map k | k in w.db.bookings :: Unassigned(w.db.bookings[k], id)),
         touched := w.touched + set k | k in w.db.bookings && w.db.bookings[k].employeeId == Some(id))
    case PutConversation(id, c) => w.(db := w.db.(conversations := w.db.conversations[id := c]))
    case RemoveBookings(ids) =>
      // "on delete cascade": the appointments of a removed contact or business go with it.
      w.(db := w.db.(bookings := w.db.bookings - ids), touched := w.touched + (ids * w.issued))
  }

  ghost predicate CanRun(w: World, events: seq<Event>)
    decreases |events|
  {
    events == [] || (Enabled(w, events[0]) && CanRun(Fire(w, events[0]), events[1..]))
  }

  function Run(w: World, events: seq<Event>): World
    requires CanRun(w, events)
    decreases |events|
  {
    if events == [] then w else Run(Fire(w, events[0]), events[1..])
  }

  /** What the row a create carries has to do with what was asked. */
  predicate Carries(request: Task, row: Booking) {
    && request.CreateBegin? && ProperTimes(row) && row.status == Confirmed
    && request.input.startsAt == Some(row.startsAt) && request.input.endsAt == Some(row.endsAt)
    && row.employeeId == request.input.employeeId
  }

  predicate EmployedBy(w: World, employee: Option<Id>, organization: Id) {
    employee.Some? ==> employee.value in w.business && w.business[employee.value] == organization
  }

  /** A finished create made its row; until the row is touched it is as it was asked for. */
  predicate Made(w: World, request: Task, id: Id) {
    request.CreateBegin? ==>
      && id in w.issued
      && (id !in w.touched ==> id in w.db.bookings && Carries(request, w.db.bookings[id]))
  }

  predicate Honest(w: World, p: Process) {
    match p.now
    case CreateCheck(row) => Carries(p.request, row)
    case CreateInsert(row) => Carries(p.request, row) && EmployedBy(w, row.employeeId, row.organizationId)
    case AssignUpdate(id, employee, _) =>
      && !p.request.CreateBegin?
      && (employee.Some? ==> id in w.issued)
      && (id in w.db.bookings ==> EmployedBy(w, employee, w.db.bookings[id].organizationId))
    case Finished(Written(id)) => Made(w, p.request, id)
    case Finished(_) => true
    case _ => p.request == p.now
  }

  ghost predicate Distinct(w: World) {
    forall p, q :: p in w.processes && q in w.processes && p != q
      && w.processes[p].request.CreateBegin? && w.processes[q].request.CreateBegin?
      && w.processes[p].now.Finished? && w.processes[p].now.outcome.Written?
      && w.processes[q].now.Finished? && w.processes[q].now.outcome.Written?
      ==> w.processes[p].now.outcome.id != w.processes[q].now.outcome.id
  }

  ghost predicate Invariant(w: World) {
    && Sound(w.db)
    && (forall e :: e in w.db.employees ==> e in w.business && w.business[e] == w.db.employees[e].organizationId)
    && w.db.bookings.Keys <= w.issued && w.touched <= w.issued
    && (forall p :: p in w.processes ==> Honest(w, w.processes[p]))
    && Distinct(w)
  }

  /** Writing a proper row of the business's own staff keeps the table sound. */
  lemma WriteKeepsSound(db: Database, id: Id, b: Booking)
    requires Sound(db) && ProperTimes(b)
    requires NotOthersStaff(db.employees, b)
    ensures Sound(Write(db, id, b).0)
  {
    if WriteRow(db, id, b).Ok? {
      var bookings' := db.bookings[id := b];
      forall i, j, e | i in bookings' && j in bookings' && i != j && Holds(bookings'[i], e) && Holds(bookings'[j], e)
        ensures !BookingsOverlap(bookings'[i], bookings'[j])
      {
        if i == id {
          assert j in db.bookings && Some(j) != Some(id);
        } else if j == id {
          assert i in db.bookings && Some(i) != Some(id);
        }
      }
    }
  }

  lemma StaffStay(w: World, employee: Option<Id>, row: Booking)
    requires Invariant(w) && row.employeeId == employee && EmployedBy(w, employee, row.organizationId)
    ensures NotOthersStaff(w.db.employees, row)
  {
    if employee.Some? {
      var e: Id := employee.value;
      assert e in w.db.employees ==> e in w.business && w.business[e] == w.db.employees[e].organizationId;
    }
  }

  lemma StatementKeepsSound(w: World, pid: Id, newId: Id)
    requires Invariant(w) && CanStep(w, pid, newId)
    ensures Sound(RunStatement(w, pid, newId).db)
  {
    assert Honest(w, w.processes[pid]);
    match w.processes[pid].now
    case CreateInsert(row) =>
      StaffStay(w, row.employeeId, row);
      WriteKeepsSound(w.db, newId, row);
    case StatusUpdate(id, status, within) =>
      if Visible(w.db, id, within) {
        WriteKeepsSound(w.db, id, w.db.bookings[id].(status := status));
      }
    case AssignUpdate(id, employee, within) =>
      if Visible(w.db, id, within) {
        var row := w.db.bookings[id].(employeeId := employee);
        StaffStay(w, employee, row);
        WriteKeepsSound(w.db, id, row);
      }
    case _ =>
  }

  /** What a row keeps whatever statement writes it. */
  predicate SameAppointment(b: Booking, b': Booking) {
    b.organizationId == b'.organizationId && b.startsAt == b'.startsAt && b.endsAt == b'.endsAt
  }

  /** The row a statement may write. */
  function Names(task: Task, newId: Id): Option<Id> {
    match task
    case CreateInsert(_) => Some(newId)
    case StatusUpdate(id, _, _) => Some(id)
    case AssignUpdate(id, _, _) => Some(id)
    case _ => None
  }

  /**
   * Any one statement changes at most the row it names, and no row's business or times. One that
   * changes anything ends its operation as written, so an operation that is refused has changed
   * nothing at any of its statements.
   */
  lemma StatementFrame(w: World, pid: Id, newId: Id)
    requires Invariant(w) && CanStep(w, pid, newId)
    ensures var w' := RunStatement(w, pid, newId);
            && w'.db.employees == w.db.employees && w'.db.conversations == w.db.conversations
            && w'.db.bookings.Keys <= w.db.bookings.Keys + {newId}
            && (forall k :: k in w.db.bookings ==>
                  && k in w'.db.bookings
                  && SameAppointment(w.db.bookings[k], w'.db.bookings[k])
                  && (Some(k) != Names(w.processes[pid].now, newId) ==> w'.db.bookings[k] == w.db.bookings[k])
                  && (k !in w'.touched ==> w'.db.bookings[k] == w.db.bookings[k]))
            && (w'.db == w.db ||
                (w'.processes[pid].now.Finished? && w'.processes[pid].now.outcome.Written?
                 && Some(w'.processes[pid].now.outcome.id) == Names(w.processes[pid].now, newId)))
  {
    var w' := RunStatement(w, pid, newId);
    match w.processes[pid].now
    case CreateInsert(row) =>
      assert w'.db == Write(w.db, newId, row).0;
    case StatusUpdate(id, status, within) =>
      assert w'.db == w.db || w'.db.bookings == w.db.bookings[id := w.db.bookings[id].(status := status)];
    case AssignUpdate(id, employee, within) =>
      assert w'.db == w.db || w'.db.bookings == w.db.bookings[id := w.db.bookings[id].(employeeId := employee)];
    case _ =>
  }

  /** The business that an operation on a row keeps to. */
  function KeepsTo(task: Task): Option<Id> {
    match task
    case StatusUpdate(_, _, within) => within
    case AssignCheck(_, _, within) => within
    case AssignUpdate(_, _, within) => within
    case _ => None
  }

  /** An operation that keeps to one business changes no row of another, at any statement in any interleaving. */
  lemma OtherBusinessesStay(w: World, pid: Id, newId: Id, k: Id)
    requires CanStep(w, pid, newId) && KeepsTo(w.processes[pid].now).Some? && k in w.db.bookings
    requires Some(w.db.bookings[k].organizationId) != KeepsTo(w.processes[pid].now)
    ensures var w' := RunStatement(w, pid, newId);
            && k in w'.db.bookings && w'.db.bookings[k] == w.db.bookings[k] && w'.db.bookings.Keys == w.db.bookings.Keys
            && (w'.processes[pid].now.Finished? || KeepsTo(w'.processes[pid].now) == KeepsTo(w.processes[pid].now))
  {
  }

  lemma StatementKeepsDistinct(w: World, pid: Id, newId: Id)
    requires Invariant(w) && CanStep(w, pid, newId)
    ensures Distinct(RunStatement(w, pid, newId))
  {
    assert forall q :: q in w.processes ==> Honest(w, w.processes[q]);
  }

  lemma StatementKeepsOthers(w: World, pid: Id, newId: Id, q: Id)
    requires Invariant(w) && CanStep(w, pid, newId)
    requires q in w.processes && q != pid
    ensures Honest(RunStatement(w, pid, newId), w.processes[q])
  {
    StatementFrame(w, pid, newId);
    assert Honest(w, w.processes[q]);
  }

  lemma StatementKeepsOwn(w: World, pid: Id, newId: Id)
    requires Invariant(w) && CanStep(w, pid, newId)
    ensures var w' := RunStatement(w, pid, newId); Honest(w', w'.processes[pid])
  {
    assert Honest(w, w.processes[pid]);
    StatementFrame(w, pid, newId);
  }

  lemma StatementKeepsInvariant(w: World, pid: Id, newId: Id)
    requires Invariant(w) && CanStep(w, pid, newId)
    ensures Invariant(RunStatement(w, pid, newId))
  {
    var w' := RunStatement(w, pid, newId);
    StatementKeepsSound(w, pid, newId);
    StatementFrame(w, pid, newId);
    forall q | q in w'.processes
      ensures Honest(w', w'.processes[q])
    {
      if q == pid {
        StatementKeepsOwn(w, pid, newId);
      } else {
        StatementKeepsOthers(w, pid, newId, q);
      }
    }
    StatementKeepsDistinct(w, pid, newId);
  }

  lemma RemovalKeepsInvariant(w: World, id: Id)
    requires Invariant(w) && id in w.db.employees
    ensures Invariant(Fire(w, RemoveEmployee(id)))
  {
    var w' := Fire(w, RemoveEmployee(id));
    forall q | q in w'.processes
      ensures Honest(w', w'.processes[q])
    {
      assert Honest(w, w.processes[q]);
    }
    assert forall k, e :: k in w'.db.bookings && Holds(w'.db.bookings[k], e) ==> Holds(w.db.bookings[k], e);
  }

  lemma EventKeepsInvariant(w: World, event: Event)
    requires Invariant(w) && Enabled(w, event)
    ensures Invariant(Fire(w, event))
  {
    match event
    case Statement(pid, newId) => StatementKeepsInvariant(w, pid, newId);
    case RemoveEmployee(id) => RemovalKeepsInvariant(w, id);
    case _ =>
      var w' := Fire(w, event);
      forall q | q in w'.processes
        ensures Honest(w', w'.processes[q])
      {
        assert q in w.processes ==> Honest(w, w.processes[q]);
      }
  }

  lemma {:induction false} RunKeepsInvariant(w: World, events: seq<Event>)
    requires Invariant(w) && CanRun(w, events)
    ensures Invariant(Run(w, events))
    decreases |events|
  {
    if events != [] {
      EventKeepsInvariant(w, events[0]);
      RunKeepsInvariant(Fire(w, events[0]), events[1..]);
    }
  }

  /**
   * The diary in every reachable state: whatever operations run, however their statements
   * interleave with each other and with staff being added, changed and removed, no two
   * confirmed appointments of one person overlap, each ends after it starts and lasts at most
   * eight hours, and each is with somebody of its own business.
   */
  lemma DiaryIsAlwaysSound(db: Database, events: seq<Event>)
    requires Sound(db) && CanRun(Opened(db), events)
    ensures var db' := Run(Opened(db), events).db;
            Sound(db') && NobodyIsInTwoPlaces(db'.bookings) && AppointmentsAreOwn(db')
  {
    RunKeepsInvariant(Opened(db), events);
    SoundMeans(Run(Opened(db), events).db);
  }

  /**
   * Two customers taking overlapping times with one person: in no interleaving do both
   * creates succeed, unless one of the two rows was changed or removed afterwards.
   */
  lemma TwoTakersCannotBothHold(db: Database, events: seq<Event>, p: Id, q: Id, input: CreateInput, input': CreateInput)
    requires Sound(db) && CanRun(Opened(db), events)
    requires var w := Run(Opened(db), events);
             && p in w.processes && q in w.processes && p != q
             && w.processes[p].request == CreateBegin(input) && w.processes[q].request == CreateBegin(input')
             && w.processes[p].now.Finished? && w.processes[p].now.outcome.Written?
             && w.processes[q].now.Finished? && w.processes[q].now.outcome.Written?
             && w.processes[p].now.outcome.id !in w.touched && w.processes[q].now.outcome.id !in w.touched
    requires input.employeeId.Some? && input.employeeId == input'.employeeId
    ensures input.startsAt.Some? && input.endsAt.Some? && input'.startsAt.Some? && input'.endsAt.Some?
    ensures input.endsAt.value <= input'.startsAt.value || input'.endsAt.value <= input.startsAt.value
  {
    RunKeepsInvariant(Opened(db), events);
    var w := Run(Opened(db), events);
    var i, j := w.processes[p].now.outcome.id, w.processes[q].now.outcome.id;
    assert Honest(w, w.processes[p]) && Honest(w, w.processes[q]);
    assert i != j;
    assert Holds(w.db.bookings[i], input.employeeId.value) && Holds(w.db.bookings[j], input.employeeId.value);
  }

  // ---- the operations on the tables in place ----

  class BookingTable {
    var employees: map<Id, Employee>
    var conversations: map<Id, Conversation>
    var bookings: map<Id, Booking>

    ghost function Db(): Database
      reads this
    {
      Database(employees, conversations, bookings)
    }

    /** One insert or update statement: the constraints decide, and a refusal changes nothing. */
    method WriteBooking(id: Id, b: Booking) returns (outcome: Outcome)
      modifies this`bookings
      ensures (Db(), outcome) == Write(old(Db()), id, b)
    {
      if b.employeeId.Some? && b.employeeId.value !in employees {
        return Refused(EmployeeGone);
      }
      if Clashes(bookings, id, b) {
        return Refused(SlotTaken);
      }
      bookings := bookings[id := b];
      return Written(id);
    }

    method CreateBooking(input: CreateInput, newId: Id) returns (outcome: Outcome)
      requires newId !in bookings
      modifies this`bookings
      ensures (Db(), outcome) == RunAlone(old(Db()), CreateBegin(input), newId)
      ensures !outcome.Written? ==> bookings == old(bookings)
      ensures old(Sound(Db())) ==> Sound(Db())
    {
      ghost var db := Db();
      if input.startsAt.None? {
        return Refused(UnreadableStart);
      }
      if input.endsAt.None? {
        return Refused(UnreadableEnd);
      }
      if input.endsAt.value <= input.startsAt.value {
        return Refused(EndsBeforeStart);
      }
      if input.endsAt.value - input.startsAt.value > MAX_DURATION_MS {
        return Refused(TooLong);
      }
      var organizationId := input.organizationId;
      var contactId := input.contactId;
      if input.conversationId.Some? {
        if input.conversationId.value !in conversations {
          return Refused(NoConversation);
        }
        var row := conversations[input.conversationId.value];
        organizationId := if row.routedOrganizationId.Some? then row.routedOrganizationId else Some(row.organizationId);
        if contactId.None? {
          contactId := row.contactId;
        }
      }
      if organizationId.None? {
        return Refused(NoBusiness);
      }
      if contactId.None? {
        return Refused(NoContact);
      }
      var row := NewRow(input, organizationId.value, contactId.value);
      CreateFromCheck(db, row, newId);
      if input.employeeId.Some? && !WorksFor(Database(employees, conversations, bookings), input.employeeId.value, organizationId.value) {
        return Refused(NotTheirEmployee);
      }
      outcome := WriteBooking(newId, row);
      if Sound(db) {
        WriteKeepsSound(db, newId, row);
      }
    }

    method SetBookingStatus(bookingId: Id, status: Status, within: Option<Id>) returns (outcome: Outcome)
      modifies this`bookings
      ensures (Db(), outcome) == RunAlone(old(Db()), StatusUpdate(bookingId, status, within), 0)
      ensures !outcome.Written? ==> bookings == old(bookings)
      ensures old(Sound(Db())) ==> Sound(Db())
    {
      ghost var db := Db();
      if bookingId !in bookings || bookings[bookingId].status == status
         || (within.Some? && bookings[bookingId].organizationId != within.value) {
        return NoRow;
      }
      var row := bookings[bookingId].(status := status);
      outcome := WriteBooking(bookingId, row);
      assert Advance(db, StatusUpdate(bookingId, status, within), 0) == (Db(), Finished(outcome));
      if Sound(db) {
        WriteKeepsSound(db, bookingId, row);
      }
    }

    method AssignBooking(bookingId: Id, employeeId: Option<Id>, within: Option<Id>) returns (outcome: Outcome)
      modifies this`bookings
      ensures (Db(), outcome) == RunAlone(old(Db()), AssignCheck(bookingId, employeeId, within), 0)
      ensures !outcome.Written? ==> bookings == old(bookings)
      ensures old(Sound(Db())) ==> Sound(Db())
    {
      ghost var db := Db();
      if employeeId.Some? {
        if bookingId !in bookings
           || !WorksFor(Database(employees, conversations, bookings), employeeId.value, bookings[bookingId].organizationId) {
          return Refused(NotTheirEmployee);
        }
      }
      AssignAlone(db, bookingId, employeeId, within, 0);
      if bookingId !in bookings || (within.Some? && bookings[bookingId].organizationId != within.value) {
        return NoRow;
      }
      var row := bookings[bookingId].(employeeId := employeeId);
      outcome := WriteBooking(bookingId, row);
      if Sound(db) {
        WriteKeepsSound(db, bookingId, row);
      }
    }
  }
}
