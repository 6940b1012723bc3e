# Nexus, modelled and proved

A Dafny model of the parts of Nexus that hold difficult promises: the appointment diary and the
search for free times, the team-chat thread with its optimistic sends, the admin's seat in a
business, the sign-in that renews itself, message routing on a number several businesses share,
and the readers of CSV files, spreadsheets, PDF strings, tokens and phone numbers. `dafny verify
dfyconfig.toml` checks all of it.

One module models one source file, or a named part of it:

| module | what it models |
|---|---|
| `Rota` | weekly working hours, and whether somebody is scheduled at a moment or throughout a span |
| `Diary` | the bookings table, its exclusion constraint, and the three operations as their statements |
| `Availability` | the half-hour search, the windowed read, and the decision on a named time |
| `RotaGate` | withholding the booking tools from a business where nobody is on a rota |
| `TeamThread` | one open chat thread on one screen, with the server and everything in flight |
| `AdminSeats` | finding, adopting, making and releasing an admin's staff record |
| `Csv` | reading a CSV file, and what the platform's own export reads back as |
| `Base64Url`, `Session` | the session token's text; signing, verifying, renewing |
| `ZonedTime` | turning a typed wall clock into an instant |
| `Text`, `Sorting`, `Prelude` | whole words, JavaScript string operations, stable sorting, shared datatypes |
| `BusinessRouter`, `Triage`, `Referral` | deep links, keywords, the triage menu, staff links |
| `PhoneNumber`, `PhoneItems`, `PhoneList` | one number as typed; the numbers in a line; a pasted list |
| `Xlsx` | column names, and placing addressed cells into a grid |
| `PdfText` | the strings of a content stream |

Code that updates things in place is modelled in that form: `Diary.BookingTable`,
`TeamThread.ThreadHook` and `AdminSeats.SeatTable` are classes, and loops are loops. Each is proved
against a function or predicate, and what the source promises is proved of that. Where several
runs can interleave (the diary, the chat, the seats), every database statement, reply, failure or
live event is one event, and the results are about every sequence of events that can happen.

Ids are integers, each standing for a uuid; times are milliseconds since the epoch.

## What turned out not to hold as written

Each is kept as the code has it, with a lemma for the exact condition under which the promise holds.

- `isScheduledThroughout` says "every minute" and looks every five: a short break between two looks
  is not seen (`Rota.SamplingMissesAShortBreak`). For all appointments it decides as looking at every
  instant would exactly when the rota has no gap shorter than five minutes inside working time
  (`Rota.SamplingIsExactWithoutShortGaps`), as on rotas and zones kept to five-minute marks
  (`Rota.SamplingIsExact`).
- A shift that wraps midnight also counts on the early hours of its own first day, before it starts
  (`Rota.WrappingShiftCoverage`).
- `hasAnyoneOnARota` can hide bookable slots. It is right for every rota of a zone exactly when each
  slot the search may look at is asked about at some weekday and minute that the gate looks at too
  (`RotaGate.GateIsRightExactlyWhenItSees`). That holds from a five-minute mark in a zone which, in the
  hour and a half past the gate's week, has not gone back since the week before: every zone that
  repeats weekly, and any change that is put right within the week, moves the clock forward by whole
  half-hours, or falls elsewhere (`RotaGate.MarksSeeSteadyZones`). It fails off a five-minute mark
  (`RotaGate.OffMarksDoNotSee`), and on one when the clocks go back during the week
  (`RotaGate.ClocksGoneBackAreNotSeen`).
- The search can offer a slot longer than eight hours, which `createBooking` refuses; every other
  offered slot goes through (`Availability.OfferedSlotsCanBeTaken`).
- `loadEarlier` does not check that its thread is still open; its reply keeps the list the open
  thread's own exactly when it is, or when the page is empty
  (`TeamThread.EarlierReplyKeepsThreadExactly`).
- A page read before a send was stored, arriving after its reply, takes the confirmed message off
  the screen until the next load (`TeamThread.StalePageHidesAConfirmedSend`). A load takes a listed
  message off exactly when the message was not in what it read
  (`TeamThread.LoadTakesOffExactlyTheUnread`), so a load read after the confirmation shows it, unless
  fifty other messages are at least as new (`TeamThread.LoadAfterConfirmationShowsIt`).
- "Two first connects at once both end on the same seat" holds exactly when the admin is linked
  already, or has at most one active record with their email and, without any, a free seat code.
  Emails of records need not be distinct, and with two such records, or with the code taken, some
  interleaving makes a connect fail (`AdminSeats.FirstConnectsAllSucceedExactly`).
- `releaseEmptySeats` promises to take only seats made longer ago than any sign-in can take, and
  goes by when the row was made. A seat found again keeps that time, so it can be deleted while its
  new sign-in is open (`AdminSeats.SeatOutlivesSignIn`, `AdminSeats.OldSeatCanGoDuringSignIn`).
- The comment in `parseCsv` says a line holding one empty field is a record; the code drops it. An
  export reads back as the same table exactly when every row is a record and no cell begins a
  formula (`Csv.ExportRoundTripExactly`).
- A kept sign-in said to last for use "at least once a month" is safe for gaps of up to 29 days and
  no longer (`Session.TwentyNineDaysExactly`).
- A staff link of a business whose own slug begins `via-` followed by a letter or digit is credited
  to the code that the slug spells, which is the right one only where the two are the same
  (`Referral.StaffLinkNamesItsStaffMember`).
- A triage menu number of three digits is never read as a number (`Triage.MenuNumberPicksItsOption`).
- A number typed with two zeros after its country code is accepted with one of them still there, and
  is then not read back from its own print (`PhoneNumber.TwoZerosLoseOne`,
  `PhoneNumber.PrintedReadsBackExactly`).

- A typed clock in an hour the clocks skip becomes an instant that shows another clock: later by the
  skipped hour where the typed clock, taken for UTC, is not before the change, and earlier by it where
  it is before (`ZonedTime.SkippedHourMoves`). Those are exactly the clocks that no instant shows
  (`ZonedTime.SkippedExactly`).

## Model

| member | source | states |
|---|---|---|
| Rota.CheckScheduledThroughout | packages/employees/src/presence.ts:251-259 | the sampling loop answers whether the person is scheduled at every look and at the last millisecond |
| Rota.SamplingIsExactWithoutShortGaps | packages/employees/src/presence.ts:238-259 | the sampling decides as looking at every instant would, for all appointments, if and only if no gap shorter than five minutes lies inside working time |
| Rota.SamplingIsExact | packages/employees/src/presence.ts:238-259 | on rotas and zones kept to five-minute marks there is no short gap, and an appointment at any time is accepted exactly when the person is scheduled at every instant of it |
| Rota.SamplingMissesAShortBreak | packages/employees/src/presence.ts:239-246 | a three-minute break between two looks is not seen, so "every minute" is not what is checked |
| Rota.WrappingShiftCoverage | packages/employees/src/presence.ts:77-105 | which clock times a shift past midnight covers: its evening, the next morning, and the early hours of its own day |
| Rota.ScheduledMeans | packages/employees/src/presence.ts:77-105 | somebody is scheduled exactly when they are active, a window of theirs takes up the minute of their own week, counted from Monday, and no break does |
| Diary.CreateAlone | packages/db/src/bookings.ts:376-500 | createBooking adds exactly the asked row when all it needs is there and the time is free, is refused as taken exactly when only the time is missing, and changes nothing otherwise |
| Diary.SetStatusAlone | packages/db/src/bookings.ts:514-546 | a status change touches one row's status, and is refused only for re-confirming a time given away since |
| Diary.AssignAlone | packages/db/src/bookings.ts:548-591 | an assignment needs somebody of the booking's business who is free then, and changes only that row's employee |
| Diary.CreateIsRefusedForASharedInstant | packages/db/migrations/031-bookings.sql:64-72 | a booking with all it needs is refused as taken exactly when a confirmed appointment of that person shares an instant with it; back to back it is written |
| Diary.CreateRefusesInOrder | packages/db/src/bookings.ts:376-451 | what else is refused, and which problem is named when there are several |
| Diary.CreateNeedsTheirEmployee | packages/db/src/bookings.ts:452-468 | a booking with somebody who is not active staff of the business is refused as that |
| Diary.SoundMeans | packages/db/migrations/031-bookings.sql:64-72 | soundness of the tables, instant by instant: both directions |
| Diary.WriteKeepsSound | packages/db/migrations/031-bookings.sql:47-72 | a statement that gets past the exclusion constraint cannot make two confirmed appointments of one person overlap |
| Diary.StatementFrame | packages/db/src/bookings.ts:474-494 | any one statement of any operation, at any point of any interleaving, leaves every row but the one it names as it was and never moves a row's business or times; whatever changes the table ends its operation as written, so a refused operation has changed nothing |
| Diary.OtherBusinessesStay | packages/db/src/bookings.ts:502-511 | an operation that keeps to one business never changes a row of another, at any of its statements in any interleaving |
| Diary.DiaryIsAlwaysSound | packages/db/src/bookings.ts:14-18 | in every reachable state, over all interleavings, at no instant do two confirmed appointments of one person go on, each appointment ends after it starts within eight hours, and each is with somebody of its own business |
| Diary.TwoTakersCannotBothHold | packages/db/src/bookings.ts:364-371 | of two customers whose bookings of one person both succeed and stand, one ends before or when the other starts |
| Diary.BookingTable.WriteBooking | packages/db/src/bookings.ts:469-499 | one statement on the table: written, or refused by the constraint with the table as it was |
| Diary.BookingTable.CreateBooking | packages/db/src/bookings.ts:376-500 | run on its own it does what its statements in order do; a refusal leaves the table as it was and soundness is kept |
| Diary.BookingTable.SetBookingStatus | packages/db/src/bookings.ts:522-546 | likewise for a status change |
| Diary.BookingTable.AssignBooking | packages/db/src/bookings.ts:549-591 | likewise for an assignment |
| Availability.WindowedReadHidesNoClash | packages/db/src/bookings.ts:284-308 | the read filtered by business and window shows a clash exactly when the whole diary has one |
| Availability.DiaryStaffAreOwn | packages/db/src/bookings.ts:452-466 | why: in every reachable diary a person's bookings are all filed under their own business |
| Availability.NextGridPointIsNext | packages/agents/src/availability.ts:71-75 | the earliest half-hour mark not before the time |
| Availability.FindFree | packages/agents/src/availability.ts:118-126 | the inner find picks the first person working throughout and free in the whole diary |
| Availability.FindAvailableSlots | packages/agents/src/availability.ts:86-138 | returns, in strictly increasing order, exactly the first `limit` (at least one) half-hour times with an hour's notice, inside the horizon, that somebody can take |
| Availability.OffersAreDetermined | packages/agents/src/availability.ts:86-138 | only one list of offers meets that description |
| Availability.OffersMean | packages/agents/src/availability.ts:86-138 | the offers by the tables alone: half-hours with an hour of notice, the asked length (five minutes at least), inside the days, in order and within the limit, each naming somebody asked for who may take it, and no earlier takeable time left out |
| Availability.ResolveSlotDecides | packages/agents/src/availability.ts:157-194 | the four answers mean what they say of the whole diary, in their order |
| Availability.ResolveSlotMeans | packages/agents/src/availability.ts:157-194 | each of the four answers if and only if the tables say so, and whoever is named is the person asked for, active, of the business, at work throughout and without a confirmed appointment that meets the time |
| Availability.FreeTimesAreWritten | packages/db/src/bookings.ts:376-500 | a free time of somebody of the business is written exactly when it is at most eight hours |
| Availability.OfferedSlotsCanBeTaken | packages/agents/src/availability.ts:16-24 | an offered slot is accepted by resolveSlot with the same person, and createBooking takes it exactly when it is at most eight hours |
| RotaGate.HasAnyoneOnARota | packages/agents/src/availability.ts:266-282 | the loop answers whether anybody is scheduled at one of the week's half-hour looks |
| RotaGate.GateIsRightExactlyWhenItSees | packages/agents/src/availability.ts:260-281 | for all rotas of a zone, diaries and queries: the gate withholds nothing bookable of half an hour or more if and only if every slot the search may look at is asked about at a weekday and minute the gate looks at |
| RotaGate.MissedStaffAreUnseen | packages/agents/src/switchboard.ts:72-85 | with staff in several zones, a withheld slot means that some person's zone is one the gate does not see |
| RotaGate.MarksSeeSteadyZones | packages/agents/src/availability.ts:274-281 | from a five-minute mark the gate sees every slot, also past its own week, in a zone that at the end of it has not gone back since the week before, but for half-hours forward |
| RotaGate.WeeklyZonesAreSteady | packages/agents/src/availability.ts:260-264 | so it does in every zone whose offset repeats weekly |
| RotaGate.OffMarksDoNotSee | packages/agents/src/availability.ts:274-281 | off a five-minute mark it does not, in any zone whose offsets are whole fives of minutes |
| RotaGate.ClocksGoneBackAreNotSeen | packages/agents/src/availability.ts:274-281 | nor on the mark where the clocks go back an hour during the week: half an hour past it is never looked at |
| TeamThread.ThreadHook.constructor | apps/web/lib/use-team-thread.ts:88-110 | a fresh hook shows nothing and cannot post |
| TeamThread.ThreadHook.Loaded | apps/web/lib/use-team-thread.ts:117-131 | a page is shown only in the thread it was read for |
| TeamThread.ThreadHook.Delivered | apps/web/lib/use-team-thread.ts:174-181 | a reply takes its item off the pending list, and adds the message once and only in its own thread |
| TeamThread.ThreadHook.DeliveryFailed | apps/web/lib/use-team-thread.ts:182-187 | a failure marks only its own item, and an aborted upload none |
| TeamThread.ThreadHook.Send | apps/web/lib/use-team-thread.ts:200-210 | queues one item for the open thread, or is refused and changes nothing |
| TeamThread.ThreadHook.SendFile | apps/web/lib/use-team-thread.ts:212-232 | likewise for a file, which has progress |
| TeamThread.ThreadHook.Retry | apps/web/lib/use-team-thread.ts:190-198 | the same item, under the same client id, is sending again |
| TeamThread.ThreadHook.Cancel | apps/web/lib/use-team-thread.ts:234-239 | takes the item off and says which upload to abort |
| TeamThread.ThreadHook.EarlierLoaded | apps/web/lib/use-team-thread.ts:273-282 | puts an earlier page in front, without messages already listed and without a thread check |
| TeamThread.ThreadHook.Heard | apps/web/lib/use-team-thread.ts:293-322 | only events of the open thread are used, and a message is listed once |
| TeamThread.ThreadIsAlwaysSound | apps/web/lib/use-team-thread.ts:20-40 | over every interleaving, also with sends from an earlier render and with the server saving a send after the screen has given it up: no message twice, client ids distinct, nothing confirmed shown as sending or failed, nothing queued lost, one row per client id |
| TeamThread.StoreGrows | packages/db/src/team-chat.ts:246-290 | a message arriving again under its client id, however late, leaves the table as it is, and the first is there |
| TeamThread.ReplyIsShown | apps/web/lib/use-team-thread.ts:174-181 | a reply lists the stored message in its open thread, last if it is new, with everything listed before kept in order; elsewhere the list stays; its item is no longer pending and the others are, in order |
| TeamThread.PostIsShown | apps/web/lib/use-team-thread.ts:293-303 | so does a live message of the open thread; of another it changes nothing |
| TeamThread.ConfirmedStaysListed | apps/web/lib/use-team-thread.ts:175-180 | from the reply to a send in the open thread on, whatever happens, its message is listed until a thread is opened or a load answered |
| TeamThread.PostStaysListed | apps/web/lib/use-team-thread.ts:296-299 | and from a live message on |
| TeamThread.LoadIsShown | apps/web/lib/use-team-thread.ts:117-131 | a load shows exactly its page, only in its own open thread |
| TeamThread.EarlierIsShown | apps/web/lib/use-team-thread.ts:273-282 | an earlier page goes in front, whole and in order but for what is listed already |
| TeamThread.HeardChangesOneMessage | apps/web/lib/use-team-thread.ts:304-310 | a removal replaces one message where it stands and keeps its reactions; reactions change one message |
| TeamThread.AttemptChangesOneItem | apps/web/lib/use-team-thread.ts:148-188 | a failure or progress changes its own item and no other |
| TeamThread.SendIsShown | apps/web/lib/use-team-thread.ts:200-232 | a send adds its item last and registers an upload under its client id |
| TeamThread.RetryIsShown | apps/web/lib/use-team-thread.ts:190-198 | a retry sends the same words to the same thread again, from no progress |
| TeamThread.CancelIsShown | apps/web/lib/use-team-thread.ts:234-239 | cancelling takes off one item and aborts its upload and no other |
| TeamThread.OpeningEmptiesTheList | apps/web/lib/use-team-thread.ts:133-142 | opening a thread empties the list and asks for a page; pending sends stay |
| TeamThread.ConfirmedNeverReturns | apps/web/lib/use-team-thread.ts:174-187 | a send confirmed by reply or live event, or cancelled, is never again shown as sending or failed |
| TeamThread.EventTouchesOnlyItsItem | apps/web/lib/use-team-thread.ts:148-239 | whatever happens, every pending item but the one it is about stays exactly as it was |
| TeamThread.NothingIsStuckSending | apps/web/lib/use-team-thread.ts:25-27 | after any run, whatever is shown as sending has an attempt of its client id in flight, not aborted, whose failure shows it as failed and whose reply takes it off |
| TeamThread.GuardedShowsOwnThread | apps/web/lib/use-team-thread.ts:117-142 | with the guard of load and deliver on loadEarlier too, all that is shown is of the open thread |
| TeamThread.EarlierReplyKeepsThreadExactly | apps/web/lib/use-team-thread.ts:273-282 | without it, a reply keeps the list the thread's own exactly when its thread is open or its page empty |
| TeamThread.StalePageHidesAConfirmedSend | apps/web/lib/use-team-thread.ts:117-131 | from any state with a page on its way, a send can be confirmed and then hidden by that page |
| TeamThread.TakenOffExactly | apps/web/lib/use-team-thread.ts:117-142 | of all that can happen, only opening a thread, or a load of the open thread whose page lacks it, takes a listed message off |
| TeamThread.LoadTakesOffExactlyTheUnread | packages/db/src/team-chat.ts:234-244 | a load is read, anything happens, and its reply comes: a listed message stays if and only if the read held it, which it does when the message was stored then among the latest fifty of its thread, and not when it was not stored or had fifty newer ones |
| TeamThread.LoadAfterConfirmationShowsIt | apps/web/lib/use-team-thread.ts:144-146 | a load read at any time after a send was confirmed shows its message, unless fifty others are at least as new |
| AdminSeats.AdvanceKeepsLawful | packages/db/migrations/108-an-admin-has-a-seat-in-a-business.sql:26 | every statement keeps one linked record per admin and business, and one record per code |
| AdminSeats.AdvanceKeepsLinks | packages/db/src/admin-seats.ts:92-125 | no statement of a run unlinks or deletes a record |
| AdminSeats.RunsLeaveOthersRecords | packages/db/src/admin-seats.ts:98-112 | whatever runs interleave, a record neither linked to their admins nor with their emails stays exactly as it is |
| AdminSeats.RunAloneEnsuresSeat | packages/db/src/admin-seats.ts:84-139 | the statements in order give the linked record, else the oldest active record with the same email, else a new one |
| AdminSeats.SeatMeans | packages/db/src/admin-seats.ts:84-139 | the seat by the rows alone: the linked record; else the oldest active unlinked record of the business with the admin's own email; else a new record with the admin's id, name and email; active and linked, so that findAdminSeat finds it, and no other row changed |
| AdminSeats.NoSeatMeans | packages/db/src/admin-seats.ts:135-136 | no seat exactly when nobody is linked, nobody has the email, and the code is taken |
| AdminSeats.SeatTable.EnsureAdminSeat | packages/db/src/admin-seats.ts:84-139 | the same, as one method on the table |
| AdminSeats.SeatTable.FindAdminSeat | packages/db/src/admin-seats.ts:27-40 | finds the linked record exactly while it is active |
| AdminSeats.SeatTable.ReleaseEmptySeats | packages/db/src/admin-seats.ts:52-68 | deletes the empty seats and says how many |
| AdminSeats.RunsConvergeOnOneSeat | packages/db/src/admin-seats.ts:80-82 | over every interleaving there are never two linked records, and runs that return give the same seat unless one of them has lost it since it returned |
| AdminSeats.FirstConnectsAllSucceedExactly | packages/db/src/admin-seats.ts:80-125 | connects at once all end on one seat, none failing and each returning by its fifth statement, in every interleaving, if and only if the admin is linked already, or has at most one active record with the same email and, with none, a free seat code; otherwise some interleaving makes one fail |
| AdminSeats.TwoRecordsFailOne | packages/db/migrations/011-employee-access.sql:28-30 | emails are not unique: from every table with two such records and no link, there is a run of connects in which one fails |
| AdminSeats.TakenCodeFails | packages/db/src/admin-seats.ts:112-125 | with nothing to adopt and the seat code taken, there is one too |
| AdminSeats.RunsAreOverInFive | packages/db/src/admin-seats.ts:84-139 | in every interleaving with anything else, a run is over after five statements of its own |
| AdminSeats.RunsCanGoOn | packages/db/src/admin-seats.ts:84-139 | and nothing blocks it before: at every stage its next statement can be made |
| AdminSeats.RerunChangesNothingElse | packages/db/src/admin-seats.ts:90-97 | a rerun gives the same seat and changes only its active flag and timestamp |
| AdminSeats.ReleaseTakesOnlyEmptyCreatedSeats | packages/db/src/admin-seats.ts:43-51 | exactly the empty seats made for an admin go, never a linked hire, and the rest stay as they are |
| AdminSeats.SeatOutlivesSignIn | packages/db/src/admin-seats.ts:45-50 | a seat handed out outlives its sign-in exactly when it is not an empty created seat or was made at most five minutes before |
| AdminSeats.NewSeatOutlivesSignIn | apps/api/src/routes/connections.ts:111 | a seat made by the run itself is safe for the whole sign-in |
| AdminSeats.OldSeatCanGoDuringSignIn | packages/db/src/admin-seats.ts:54-63 | for any admin, an old seat found again can be deleted a minute later |
| Csv.ParseCsv | apps/web/lib/csv-parse.ts:39-104 | the character loop computes the rows of the recursive reading |
| Csv.ReadsBackWhatWasWritten | apps/web/lib/csv-parse.ts:27-38 | any fields, quoted or plain, with either line ending, come back as the records written |
| Csv.QuotedTableRoundTrip | apps/web/lib/csv-parse.ts:19-21 | every table of records, all quoted, reads back as itself |
| Csv.ExportReadsBack | packages/shared/src/csv.ts:65-85 | the platform's export reads back as its records with formulas made inert |
| Csv.CellIsWritten | packages/shared/src/csv.ts:43-63 | a cell that begins a formula gets an apostrophe, and one that could be misread is quoted, exactly then |
| Csv.ExportIsWritten | packages/shared/src/csv.ts:65-85 | a byte order mark and every row, each ended by CRLF |
| Csv.ExportRoundTripExactly | packages/shared/src/csv.ts:43-85 | as the very same table exactly when every row is a record and no cell begins a formula |
| Csv.QuoteFreeIsNaiveSplit | apps/web/lib/csv-parse.ts:64-101 | without a quote the machine equals splitting on line breaks and then commas |
| Csv.BlankLineIsNoRecord | apps/web/lib/csv-parse.ts:51-58 | the lines dropped there are exactly the blank ones |
| Base64Url.B64Url | apps/web/lib/auth.ts:36-40 | one character of the url alphabet for every six bits, and no padding |
| Base64Url.FromB64Url | apps/web/lib/auth.ts:42-49 | fills the array with the bytes the text stands for, or fails where atob does |
| Base64Url.UrlTextIsClean | apps/web/lib/auth.ts:39 | the text contains no dot and no padding |
| Base64Url.Base64UrlRoundTrip | apps/web/lib/auth.ts:36-49 | decoding undoes encoding for every byte sequence |
| Base64Url.GroupIsTheNumber | apps/web/lib/auth.ts:36-40 | three bytes and their four sextets are the same number, as are the shorter ends filled up with zero bits |
| Base64Url.AlphabetsAre | apps/web/lib/auth.ts:36-40 | the two alphabets of tables 1 and 2 of RFC 4648 |
| Base64Url.TextIsReadExactly | apps/web/lib/auth.ts:42-49 | a text is read exactly when its characters are of either alphabet and no lone one is left over |
| Base64Url.AtobReadsExactly | apps/web/lib/auth.ts:42-49 | what atob alone reads of a text without padding |
| Base64Url.AtobSkipsSpaces | apps/web/lib/auth.ts:42-49 | white space makes no difference to it |
| Session.VerifiesWhatWasSigned | apps/web/lib/auth.ts:93-157 | exactly the signed tokens not expired and complete in scope verify, and give back what was signed |
| Session.SignedTokenMeans | apps/web/lib/auth.ts:127-153 | by the fields: honoured exactly while not expired and, for an employee, with person, business and slug all given; each role carries its own fields and no others |
| Session.TwelveHoursUnkept | apps/web/lib/auth.ts:98-105 | without "keep me signed in" a sign-in is honoured for exactly twelve hours and never renewed |
| Session.ThirtyDaysKept | apps/web/lib/auth.ts:98-105 | with it, for thirty days from signing and not past ninety from the typing of the code |
| Session.OnlySignedBodiesVerify | apps/web/lib/auth.ts:111-157 | whoever wrote it, a text verifies if and only if it is a current body, a dot, and base64url text of that body's own signature |
| Session.SignatureCannotBeMoved | apps/web/lib/auth.ts:111-119 | a text ending in the signature made for one body verifies only where the signature of its own body is the same |
| Session.ClaimsSurvive | apps/web/lib/auth.ts:169-179 | a complete scope comes through a session and back, unchanged when it has no stray fields, and without them otherwise |
| Session.VisitsMoveOnlyTimes | apps/web/middleware.ts:43-59 | through any number of visits the person, scope and moment of signing in stay, and only times move |
| Session.RenewalExtends | apps/web/lib/auth.ts:19-24 | expiry never passes ninety days after the code was typed, and each renewal strictly extends it |
| Session.VisitSignsAgain | apps/web/middleware.ts:49-59 | a visit signs again, for the same moment of typing the code, exactly when the sign-in is honoured, was signed more than a day before, and does not run to day ninety |
| Session.NinetyDaysAreTheEnd | apps/web/lib/auth.ts:19-24 | whatever visits there were, after ninety days it is over |
| Session.AtMostSixtyRenewals | apps/web/lib/auth.ts:163-167 | at most sixty renewals follow one typing of the code |
| Session.SixtyRenewalsHappen | apps/web/lib/auth.ts:163-167 | and sixty can happen |
| Session.TwentyNineDaysExactly | apps/web/middleware.ts:43-48 | use with gaps of at most `gap` keeps the sign-in valid until day ninety exactly when `gap` is at most 29 days |
| Session.StillSignedIn | apps/web/middleware.ts:49-59 | such use finds the same person, scope and sign-in at every visit until day ninety |
| ZonedTime.TwoPassesFind | apps/web/lib/zoned-time.ts:38-47 | if some instant shows the typed clock, the two passes find one that does |
| ZonedTime.ReadsBackWheneverItCan | apps/web/lib/zoned-time.ts:20-47 | the computed instant shows the typed clock exactly when some instant does |
| ZonedTime.OnePassIsNotEnough | apps/web/lib/zoned-time.ts:28-33 | a zone and clock that one correction gets wrong and two get right |
| ZonedTime.SkippedHourMoves | apps/web/lib/zoned-time.ts:28-47 | which instant a clock in a skipped hour becomes, and the clock it shows: moved by as much as the clocks went forward, later or earlier by the side of the change it falls on |
| ZonedTime.SkippedExactly | apps/web/lib/zoned-time.ts:28-47 | the clocks that no instant shows are exactly those between the clock a forward change leaves and the one it goes to |
| ZonedTime.UnreadableGivesNothing | apps/web/lib/zoned-time.ts:38-41 | a date or time that cannot be read gives no instant, and only that |
| ZonedTime.MeasuredWithoutMilliseconds | apps/web/lib/zoned-time.ts:56-78 | what is measured is the offset less the milliseconds that Intl does not print |
| Text.SpacedAndTrimmed | packages/agents/src/business-router.ts:43-45 | spacing out and trimming leaves the words of the text with one space between them |
| Text.PaddedSearchIsWordSearch | packages/agents/src/business-router.ts:104-107 | one padded word list occurs inside another exactly when its words occur there one after another |
| Text.LowerMeans | packages/agents/src/business-router.ts:67-87 | folding case makes texts equal exactly when only the case of ASCII letters differs |
| Text.TrimMeans | packages/agents/src/business-router.ts:29-45 | trimming takes off the white space at both ends and nothing else |
| Text.SpacesAre | packages/agents/src/business-router.ts:29-45 | which characters are white space |
| BusinessRouter.KeywordIsWholeWords | packages/agents/src/business-router.ts:29-45 | a keyword hits exactly when its words are consecutive whole words of the message |
| BusinessRouter.HitsAreWholeWords | packages/agents/src/business-router.ts:101-109 | the hits are the businesses with such a keyword, each with all of them |
| BusinessRouter.DecideIsDecisive | packages/agents/src/business-router.ts:111-124 | a business is routed to exactly when it is the only hit or leads all others by two keywords; otherwise all hits are candidates |
| BusinessRouter.ClassifyMeans | packages/agents/src/business-router.ts:89-125 | of the whole answer, by the words: routed to a business, with all its keywords in the message, exactly when it has some, is listed once and has two more than any other that has some; unknown exactly when nobody has any; otherwise the candidates are those that have some |
| BusinessRouter.KeywordsInAre | packages/agents/src/business-router.ts:101-109 | those keywords are the business's own that occur as consecutive whole words, in its order and as often as it lists them |
| BusinessRouter.OrderDoesNotMatter | packages/agents/src/business-router.ts:89-125 | the routed business, or the set of candidates, does not depend on the order of the list |
| Sorting.SortSorts | packages/agents/src/business-router.ts:119 | the sort is descending and a permutation |
| Sorting.SortIsStable | packages/agents/src/business-router.ts:119-124 | equal elements keep the order of the list |
| BusinessRouter.TagNamesItsBusiness | packages/agents/src/business-router.ts:67-87 | a message that is a slug's tag, alone or before anything that does not lengthen it, is read as that business's exactly when the slug is in the tag grammar, of 2 to 41 characters |
| BusinessRouter.TagIsReadInAnyCase | packages/agents/src/business-router.ts:67-87 | behind white space and in any case too; a tag that is nobody's slug is none |
| BusinessRouter.NoHashNoTag | packages/agents/src/business-router.ts:67-71 | a message that does not begin with # has no tag |
| BusinessRouter.LinkRoutesToItsBusiness | packages/agents/src/business-router.ts:56-96 | a published link, or its tag alone, reaches its business whatever keywords follow |
| Triage.OptionsHaveDistinctNumbers | packages/agents/src/business-router.ts:206-223 | two options of a menu, narrowed or not, never carry the same number |
| Triage.MenuNumberPicksItsOption | packages/agents/src/business-router.ts:257-277 | the number shown picks its option from the full list up to 99, and above is not read as a number |
| Triage.LongestNameWins | packages/agents/src/business-router.ts:279-286 | a name is found exactly when one is in the answer, and then no longer one is there too |
| Triage.OtherAnswersPickByName | packages/agents/src/business-router.ts:265-287 | an answer that begins with no digit, or with a number outside the list, picks the business with the longest name in it, and nobody exactly when there is none |
| Triage.NoAnswerPicksNobody | packages/agents/src/business-router.ts:269-270 | white space picks nobody |
| Referral.FoundIsTag | packages/agents/src/referral.ts:54-68 | whatever is found anywhere is a code in the tag grammar |
| Referral.StaffLinkTagIs | packages/agents/src/referral.ts:84-97 | what the text of a staff link is read as, in both cases |
| Referral.StaffLinkNamesItsStaffMember | packages/agents/src/referral.ts:54-97 | a staff link is credited to its staff member exactly when the code is in the tag grammar, or, where the slug itself reads as a staff tag, when the code is the one that the slug spells |
| Referral.StaffLinkRoutesToItsBusiness | packages/agents/src/referral.ts:30-42 | the same text reaches its business whatever it contains |
| PhoneNumber.TheTableIsGood | apps/web/lib/phone-list.ts:25-38 | calling codes never prefix one another, and the lengths cannot be confused with a number that includes its code |
| PhoneNumber.CountryOfIs | apps/web/lib/phone-list.ts:79-82 | the country found is the one listed country whose code begins the digits |
| PhoneNumber.LongestCodeIsCountryOf | apps/web/lib/phone-list.ts:135-138 | looking for the longest code first finds the same country |
| PhoneNumber.AcceptedIsWellFormed | apps/web/lib/phone-list.ts:103-132 | whatever is typed, what is accepted is 8 to 15 digits not starting with 0, of a length its listed country uses |
| PhoneNumber.AcceptedWasTyped | apps/web/lib/phone-list.ts:4-10 | nothing is invented: an accepted number is what was typed, but for one 0 left out or the chosen country's code in front, and then it is marked corrected |
| PhoneNumber.CorrectedMeans | apps/web/lib/phone-list.ts:84-132 | a number is marked corrected exactly when it is not the digits typed |
| PhoneNumber.InternationalIsAcceptedExactly | apps/web/lib/phone-list.ts:72-97 | digits with + or 00 are accepted exactly when there are 8 to 15, not starting with 0, that fit after a listed code; otherwise the reason is named |
| PhoneNumber.LocalIsAcceptedExactly | apps/web/lib/phone-list.ts:116-132 | other digits exactly when they fit the chosen country, with or without a 0, alone or behind its code |
| PhoneNumber.NoNumberMeans | apps/web/lib/phone-list.ts:103-114 | what Excel shortened, and a text with a letter or without a digit, are refused as that and nothing else is |
| PhoneNumber.OnlyDigitsCount | apps/web/lib/phone-list.ts:108-114 | separators, spaces and eastern digits make no difference to the reading |
| PhoneNumber.DigitsOfAre | apps/web/lib/phone-list.ts:108-114 | the digits of a text are its characters 0 to 9 in their order |
| PhoneNumber.WesternDigitsAre | apps/web/lib/phone-list.ts:65-70 | Arabic-Indic and Persian digits are the western ones |
| PhoneNumber.ListedLengthsAre | apps/web/lib/phone-list.ts:11-36 | how long the numbers of each listed country are |
| PhoneNumber.EveryWayOfWriting | apps/web/lib/phone-list.ts:84-132 | nationally with or without 0, with the code plain, with + or 00, or with a 0 kept after the code: one and the same number |
| PhoneNumber.PrintedReadsBackExactly | apps/web/lib/phone-list.ts:134-144 | printed digits read back uncorrected exactly when well formed with no 0 after a listed code |
| PhoneNumber.PrintIsGrouped | apps/web/lib/phone-list.ts:134-144 | how a number of the Emirates is grouped in print |
| PhoneNumber.OtherPrintsAre | apps/web/lib/phone-list.ts:134-144 | and how others are printed |
| PhoneNumber.AcceptedReadsBackExactly | apps/web/lib/phone-list.ts:103-144 | an accepted number reads back from its print, under any country, exactly when no 0 is left after its code |
| PhoneNumber.TwoZerosLoseOne | apps/web/lib/phone-list.ts:91-97 | with two zeros after the code, one is dropped and the other accepted, and the print of that number does not give it back |
| PhoneItems.FindItems | apps/web/lib/phone-list.ts:174-188 | the loops over pieces and runs find the items of the line, in order, and a lone unnamed one takes the first wordy piece as its name |
| PhoneItems.ItemsAreRuns | apps/web/lib/phone-list.ts:62-63 | what is picked out of any line is digits and separators with at most a + in front, eight characters or more, ending in a digit |
| PhoneItems.RunIsReadAsNumber | apps/web/lib/phone-list.ts:103-114 | such a run is never refused as not being a number: it is read by its digits |
| PhoneItems.PrintedNumberIsOneItem | apps/web/lib/phone-list.ts:134-185 | a printed number alone on a line is picked out whole and without a name |
| PhoneItems.NumbersAmongWords | apps/web/lib/phone-list.ts:174-184 | words and any number of numbers in turn: an item for each number, whole and in order, named by the words that are left |
| PhoneItems.NumberIsNamedByItsNeighbour | apps/web/lib/phone-list.ts:185-188 | a number alone in its piece is named by the wordy piece in front, parted by a comma, semicolon or tab |
| PhoneItems.ExcelNumberIsReported | apps/web/lib/phone-list.ts:176-180 | a piece Excel shortened is one item, marked so |
| PhoneList.ReadPhoneList | apps/web/lib/phone-list.ts:155-221 | one row for every number found or missing, each decided by what the rows before it took, whatever picks the numbers out of a line |
| PhoneList.OutcomesAreDecided | apps/web/lib/phone-list.ts:194-217 | a row is duplicate exactly when an earlier row took its number, known exactly when first and in the known set, refused exactly when it has none |
| PhoneList.CorrectedWhenNotAsTyped | apps/web/lib/phone-list.ts:200-215 | a first, unknown number is corrected exactly when it is not the digits typed, and its note prints both |
| PhoneList.RowSaysWhatWasTyped | apps/web/lib/phone-list.ts:194-217 | each row is of its line, with the number as picked out and its name, or the whole line where there was none |
| PhoneList.NotesSayWhy | apps/web/lib/phone-list.ts:194-217 | the note of each outcome, and the reason of each refusal |
| PhoneList.EachNumberOnce | apps/web/lib/phone-list.ts:198-201 | no number is accepted on two rows |
| PhoneList.EachNumberSomewhere | apps/web/lib/phone-list.ts:198-215 | and a number any row carries is accepted on one |
| PhoneList.RowsAreWellFormed | apps/web/lib/phone-list.ts:3-10 | every number a row carries is well formed |
| PhoneList.LinesNeverDecrease | apps/web/lib/phone-list.ts:44-46 | line numbers never decrease and are those of the text |
| PhoneList.EveryLineIsReported | apps/web/lib/phone-list.ts:152-172 | a line has a row exactly when it is not blank and not a first line without a digit |
| PhoneList.YieldsMeans | apps/web/lib/phone-list.ts:164-172 | by the characters: a line has a row exactly when it holds something, and a digit unless something stands before it |
| PhoneList.LinesAreReadBack | apps/web/lib/phone-list.ts:160-161 | lines with either break behind them are read as those lines |
| PhoneList.EasternDigitsAreTheSame | apps/web/lib/phone-list.ts:160 | a list in eastern digits is the same list |
| PhoneList.CountOutcomes | apps/web/lib/phone-list.ts:245-249 | the five totals are the numbers of rows of each outcome, and add up to all rows |
| PhoneList.PrintedListReadsBack | apps/web/lib/phone-list.ts:134-221 | a printed list pasted back, under any country, gives a row for each number, on its line, holding that number, none refused or corrected |
| Xlsx.ColumnIndex | apps/web/lib/xlsx-read.ts:100-105 | the loop computes the base-26 value of the letters |
| Xlsx.ColumnNamesAreABijection | apps/web/lib/xlsx-read.ts:100-105 | names and columns are each other's inverse, both ways |
| Xlsx.AddressHasItsColumn | apps/web/lib/xlsx-read.ts:101-105 | an address in either case and with any row number is read as its column |
| Xlsx.PlaceCells | apps/web/lib/xlsx-read.ts:152-168 | a row as long as its furthest cell, each place holding the last cell put there or nothing |
| Xlsx.ReadRows | apps/web/lib/xlsx-read.ts:149-173 | a grid without holes equal to the last-write map, with no empty row at its end |
| Xlsx.AddressedCellIsThere | apps/web/lib/xlsx-read.ts:130-133 | a cell that is the last with its address is found at that place |
| Xlsx.CellIsAtItsPlace | apps/web/lib/xlsx-read.ts:149-173 | whatever was last put at a place is found there, trimmed |
| Xlsx.UnaddressedGoesNext | apps/web/lib/xlsx-read.ts:152-168 | a cell without an address goes right behind the furthest before it |
| Xlsx.UnnumberedGoesNext | apps/web/lib/xlsx-read.ts:149-151 | a row without a number goes below the lowest before it |
| PdfText.ReadString | packages/agents/src/pdf-text.ts:114-132 | the inner loop reads one string, escapes and nesting included, and stops at the parenthesis that closes it or the end |
| PdfText.Parenthesised | packages/agents/src/pdf-text.ts:104-135 | the nested loops return every string in order, on every input |
| PdfText.WrittenIsRead | packages/agents/src/pdf-text.ts:118-130 | what is written with escapes and matching parentheses is read back and ends where it was closed |
| PdfText.ReadWasWritten | packages/agents/src/pdf-text.ts:118-130 | everything read up to a closing parenthesis was written so |
| PdfText.StreamReadsBack | packages/agents/src/pdf-text.ts:103-135 | a stream of strings with text between them gives exactly those strings |
| PdfText.EscapingIsUndone | packages/agents/src/pdf-text.ts:103-135 | any texts with backslash and both parentheses escaped are read back |
| PdfText.NestingIsKept | packages/agents/src/pdf-text.ts:103-135 | balanced parentheses need no escape and are kept verbatim |

## Left out

- The order in which `listBookingsInWindow` returns rows, and `countBookings`: the search only asks whether some row clashes.
- Subject and notes of a booking and their length limits, `toBooking`, and the foreign key of the contact: they take no part in the diary's rules.
- Row-level security and tenant contexts: a read sees the whole table, as it does in the serving business's context.
- Isolation levels beyond one statement a step.
- How Intl formats: `localClock` and `zoneOffsetMs` take the zone's offset as a parameter.
- `describeSlot`, `describeInstant` and other wording for people.
- Fractional `days` of a search, and dates outside JavaScript's range.
- Typing, reading marks, reactions' own requests, mentions and the file's contents in a chat thread.
- TeamThread.ThreadHook.Send: is the call from the render being shown; calls kept from an earlier render are in `TeamThread.Event`, which lets a send or a load of earlier messages be for any thread.
- The error text of a load that fails: such a load is one whose reply never comes.
- The database keeps message times to the microsecond and `loadEarlier` asks by milliseconds; here both have one resolution.
- Session.VerifySession: the signature is a function of the body and JSON a codec that reads back what it wrote, because their insides are the platform's.
- Text.Lower: folds ASCII letters only, because tags and codes are ASCII; slugs outside ASCII are compared as they are.
- `normalizeForMatch` and which characters are letters or numbers are parameters; the routing results ask only that no letter or number is white space.
- `hintFor` and the two languages of the triage message: wording.
- The URI encoding of links, `personalHandoffLink` and `describeReferringColleague`.
- `gridToLines` and `findColumns`: which columns a header names.
- Xlsx.ReadRows: starts from row and cell elements with their text; zip, inflate, XML and number formatting are not part of it, nor are row numbers with a fraction.
- PdfText.Parenthesised: as in the source, a backslash gives the next character as it stands; the letter, octal and line-end escapes of section 7.3.4.2 of ISO 32000-1 are not decoded.
- The streams and character maps of a PDF: foreign formats and regular expressions.
- Strings are sequences of characters; lengths counted in UTF-16 units can differ for characters outside the basic plane.
