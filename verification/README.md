# Braiding-salon booking core, in Dafny

This project models the small sequential core of a braiding salon's web app. The app has a public booking page and an admin area. Its state is one record of flat, insertion-ordered lists: clients, appointments, session reports ("fichas"), financial records, Kanban tasks, plus the global price and duration settings. Every rule below is a pure function over that record.

- **Types** (`types.dfy`): the records and the string-literal unions of `types.ts`, each union a datatype with its stored literal. There is also the `Store` record and the invariant that every appointment refers to an existing client.
- **Availability** (`availability.dfy`): today's `YYYY-MM-DD` string, the fixed slot catalog 08:00 / 13:00 / 14:00, and the filter that hides past slots on today's date and slots held by an appointment that is not cancelled.
- **Booking** (`booking.dfy`): the online booking transaction. It finds a client by e-mail ignoring case, or creates a pending one. It then appends one Box Braids appointment priced from the settings and one matching income record.
- **LegacyApp** (`legacy_app.dfy`): the older shell's copy of that transaction, written the way that copy is written and proved equal to it.
- **Schedule** (`schedule.dfy`): the admin agenda.
  - A manual add pairs one appointment with one income record. A number field of zero or NaN falls back to the default.
  - `markCompleted`.
  - The technique price and duration table.
  - The agenda's date-then-time listing order.
- **SessionReports** (`session_reports.dfy`):
  - The client list, with each client's latest appointment date and a case-insensitive name search.
  - One client's history, latest first.
  - Opening a note: prefill from the existing note.
  - Saving a note: an upsert keyed by appointment id.
- **AdminNav** (`admin_nav.dfy`): the sidebar's active-link test. The dashboard link matches exactly; every other link matches as a prefix.
- **Text** and **Seqs** (`text.dfy`, `seqs.dfy`): the string and list primitives the app relies on:
  - ASCII `toLowerCase` and `includes`;
  - `trim` with JavaScript's whitespace set;
  - lexicographic order on Unicode scalar values standing in for `localeCompare`;
  - decimal rendering and `padStart`;
  - `filter` and a stable sort.

Everything that reads the clock becomes a parameter:
- today's date and the current hour and minute in the salon's time zone;
- the `Date.now()` stamp used for identifiers;
- the ISO timestamp of a saved note.

## Model

| member | source | states |
|---|---|---|
| Types.ClientStatusNames | types.ts:8 | a client status is one of exactly three stored literals, and parsing a literal gives back the status it names |
| Types.TreatmentStageNames | types.ts:10 | the treatment stage is one of exactly four literals, read back by parsing |
| Types.AppointmentTypeNames | types.ts:18 | the technique is one of Box Braids, Nagô, Twist, Entrelace, Penteado, read back by parsing |
| Types.AppointmentStatusNames | types.ts:19 | an appointment is exactly one of scheduled, completed, cancelled |
| Types.FinancialTypeNames | types.ts:45 | a financial record is income or expense |
| Types.KanbanStatusNames | types.ts:54 | a Kanban task is todo, doing or done |
| Text.Lower | components/SessionReportManagement.tsx:29 | every ASCII capital is lowered to its small letter, every other character is kept, and the length is unchanged |
| Text.LowerIdempotent | components/SessionReportManagement.tsx:29 | lowering an already lowered text changes nothing |
| Text.StartsWith | components/AdminLayout.tsx:36 | `p` is a prefix of `s`: no longer than `s` and equal to it character by character, so that `s` is `p` followed by the rest |
| Text.Includes | components/SessionReportManagement.tsx:29 | `includes` is true exactly when the pattern occurs at some position of the text |
| Text.TrimEmptyIffAllWhitespace | components/SessionReportManagement.tsx:28 | `trim()` leaves nothing exactly when the text is all whitespace |
| Text.Trim | components/SessionReportManagement.tsx:28 | `trim()` is a slice of the text whose ends are not whitespace, and everything cut off before and after it is whitespace |
| Text.AllWhitespaceIgnoresCase | components/SessionReportManagement.tsx:28-29 | two texts equal ignoring case are blank together |
| Text.LexLeTransitive | components/ScheduleManagement.tsx:108 | the string order standing in for `localeCompare` is transitive |
| Text.LexLeTotal | components/ScheduleManagement.tsx:108 | any two strings are comparable in that order |
| Text.LexLeAntisymmetric | components/ScheduleManagement.tsx:108 | two strings each no later than the other are equal |
| Text.DecimalRoundTrip | components/LandingPage.tsx:45 | the decimal rendering of a number reads back as that number |
| Text.TwoDigits | components/LandingPage.tsx:46-47 | `String(n).padStart(2,'0')` for n below 100 is two digits reading back as n |
| Seqs.Filter | components/LandingPage.tsx:65 | `filter` keeps exactly the elements passing the test, never more than it was given |
| Seqs.FilterCount | components/LandingPage.tsx:65 | `filter` keeps every copy of an element that passes the test and no copy of one that fails it |
| Seqs.FilterIsSubsequence | components/LandingPage.tsx:65 | `filter` keeps its survivors in their original order |
| Seqs.Sort | components/ScheduleManagement.tsx:108 | `sort` returns a permutation of its input ordered by the comparator |
| Availability.TodayStr | components/LandingPage.tsx:43-49 | today's string is the year's digits followed by a dash, the two-digit month, a dash and the two-digit day |
| Availability.TodayStrTenChars | components/LandingPage.tsx:45-48 | for a four-digit year today's string is exactly ten characters, YYYY-MM-DD |
| Availability.TodayStrRoundTrip | components/LandingPage.tsx:44-48 | today's string reads back as the year, the 1-based calendar month and the day it was built from |
| Availability.CatalogClocks | components/LandingPage.tsx:51-56 | the catalog holds three HH:MM slots, 08:00, 13:00 and 14:00, in that order |
| Availability.ClockOfDigits | components/LandingPage.tsx:67 | splitting HH:MM at the colon and reading both halves as numbers gives hour HH and minute MM |
| Availability.AvailableTimeSlots | components/LandingPage.tsx:58-83 | no date gives no slots. The result keeps catalog order. A slot is offered exactly when it is in the catalog, is not past on today's date and is not held |
| Availability.AvailableIff | components/LandingPage.tsx:65-82 | on today's date a slot needs to start strictly after the current hour and minute, and on any date no appointment that is not cancelled may hold it |
| Availability.NoPastSlotToday | components/LandingPage.tsx:66-73 | no slot at or before the current minute is offered on today's date |
| Availability.NoHeldSlotOffered | components/LandingPage.tsx:75-81 | a slot taken by an appointment that is not cancelled is never offered |
| Availability.CancelledHoldsNothing | components/LandingPage.tsx:76-80 | a cancelled appointment never makes a slot occupied |
| Availability.CancelledNeverSuppresses | components/LandingPage.tsx:75-81 | adding a cancelled appointment leaves the offered slots unchanged |
| Availability.OtherDateOnlyOccupancy | components/LandingPage.tsx:65-82 | on a date other than today occupancy is the only test, so past dates are not rejected |
| Availability.AvailableSpelledOut | components/LandingPage.tsx:65-82 | the offer is the three catalog slots, each kept or dropped by the test, in catalog order |
| Availability.OtherDateEmptyAgenda | components/LandingPage.tsx:65-82 | with no appointments a date other than today offers the whole catalog |
| Availability.EarlyMorningAllSlots | components/LandingPage.tsx:66-73 | at 07:00 on an empty day all three slots are offered |
| Availability.MidMorningDropsPastSlot | components/LandingPage.tsx:66-73 | at 08:30 on today's date only 13:00 and 14:00 are offered |
| Availability.SlotAtCurrentMinuteDropped | components/LandingPage.tsx:68-71 | at exactly 13:00 the 13:00 slot is dropped, leaving only 14:00 |
| Availability.ScheduledHidesSlot | components/LandingPage.tsx:75-81 | on a date other than today, a scheduled 13:00 appointment leaves only 08:00 and 14:00 |
| Availability.CancelledHidesNoSlot | components/LandingPage.tsx:75-81 | on a date other than today, a single cancelled appointment leaves all three slots offered |
| Availability.CancellingFreesSlot | components/LandingPage.tsx:75-81 | a scheduled 13:00 appointment hides that slot, and cancelling it brings the slot back |
| Booking.FindByEmail | context/AppContext.tsx:167-169 | the lookup finds the first client whose e-mail equals the given one ignoring case, and finds none exactly when no client matches |
| Booking.RegisterNewBooking | context/AppContext.tsx:163-215 | a client whose e-mail matches ignoring case is reused and the client list is unchanged; otherwise exactly one pending, First Contact client at "A combinar" with the given name, e-mail and phone is appended; the appointment's client is in the resulting list; exactly one Box Braids, scheduled appointment on the requested date and time at the settings' price and duration is appended and returned; exactly one "Serviço" income record of that price and date is appended; stored entries keep their order, and settings, notes and tasks are untouched |
| Booking.BookingPreservesClientRefs | context/AppContext.tsx:184-202 | after a booking every appointment still refers to a client in the list |
| Booking.RebookingSameEmail | context/AppContext.tsx:167-186 | two bookings with the same e-mail in different case create one client, which keeps the first name, and both appointments refer to it |
| Booking.BookingSkipsAvailabilityCheck | context/AppContext.tsx:163-215 | booking an already held slot still succeeds and leaves two active appointments on it |
| Booking.BookedSlotNoLongerOffered | context/AppContext.tsx:188-202 | once booked, the slot is no longer offered for that date |
| LegacyApp.FindClientAgrees | App.tsx:92 | `find` returns the very client at the index the state container's lookup reports |
| LegacyApp.RegisterNewBooking | App.tsx:91-138 | the legacy copy equals the state container's transaction. It reuses a matching client or adds a pending First Contact one at "A combinar". It appends a Box Braids scheduled appointment at the default price and duration, and an income record of that amount and date |
| Schedule.NumberOr | components/ScheduleManagement.tsx:26-37 | a number field of zero or NaN falls back to the default, and any other number is kept |
| Schedule.EmptyForm | components/ScheduleManagement.tsx:17-20 | the form starts, and is reset to, empty client, date and time, Box Braids, and the default price and duration |
| Schedule.HandleAddAppointment | components/ScheduleManagement.tsx:22-54 | a form missing its client, date or time changes nothing; otherwise exactly one scheduled appointment with the form's client, date, time and technique and the fallback price and duration is appended, plus exactly one "Serviço" income record of that price and date; clients, settings, notes and tasks are untouched |
| Schedule.ManualAddPreservesClientRefs | components/ScheduleManagement.tsx:29-40 | adding for an existing client keeps every appointment referring to a client |
| Schedule.ClientLabel | components/ScheduleManagement.tsx:27-44 | the name of the first client with the form's id, or "Cliente" when there is no such client or its name is empty |
| Schedule.SubmitForm | components/ScheduleManagement.tsx:22-54 | an incomplete form leaves store and form as they are; a successful add also resets the form to its initial contents |
| Schedule.SubmitTwiceAddsOnce | components/ScheduleManagement.tsx:24-53 | submitting again right after a successful add changes nothing, because the reset form has no client, date or time |
| Schedule.UntouchedTechniqueUsesDefaults | components/ScheduleManagement.tsx:17-38 | a form submitted without touching the technique buttons records Box Braids at the settings' defaults (180 and 240 minutes with the initial settings), not at the Box Braids table entry of 350 and 360 |
| Schedule.MarkCompleted | components/ScheduleManagement.tsx:56-58 | every appointment with the id becomes completed. Other appointments, other fields, the order and the financial records are unchanged |
| Schedule.MarkCompletedIdempotent | components/ScheduleManagement.tsx:57 | marking completed twice is marking completed once |
| Schedule.MarkCompletedKeepsAvailability | components/ScheduleManagement.tsx:56-58 | completing a scheduled appointment leaves the public slot offer unchanged |
| Schedule.TechniqueDefaults | components/ScheduleManagement.tsx:60-75 | the prices and durations are Box Braids 350/360, Nagô 150/90, Twist 300/240, Entrelace 400/240, Penteado 120/60, and a name outside the table gets the settings' defaults |
| Schedule.HandleTypeChange | components/ScheduleManagement.tsx:60-76 | choosing a technique sets it and pre-fills its table price and duration, keeping client, date and time |
| Schedule.TechniqueNeverFallsBack | components/ScheduleManagement.tsx:61-75 | every offered technique has its own non-zero price and duration, so the settings never show through |
| Schedule.DateTimeLeTransitive | components/ScheduleManagement.tsx:108 | the date-then-time comparator is transitive |
| Schedule.DateTimeLeTotal | components/ScheduleManagement.tsx:108 | the date-then-time comparator relates any two appointments |
| Schedule.ListingOrder | components/ScheduleManagement.tsx:108 | the agenda lists a permutation of the appointments ordered by date, and by time within a date |
| SessionReports.LatestFirst | components/SessionReportManagement.tsx:22-35 | one client's appointments and only those, each as many times as it is stored, ordered by date with the latest first |
| SessionReports.LastDate | components/SessionReportManagement.tsx:21-26 | a client's last date is the greatest date among their appointments, or 0000-00-00 when they have none |
| SessionReports.Rows | components/SessionReportManagement.tsx:21-27 | one row per client, each carrying that client's last date |
| SessionReports.Matching | components/SessionReportManagement.tsx:28-30 | a blank search keeps every row; any other keeps every copy of each row whose name matches and drops the rest |
| SessionReports.FilteredClients | components/SessionReportManagement.tsx:20-31 | the rows are exactly the clients, each with their last date, that the search admits, each as many times as the search keeps it; a blank search lists all clients; the rows are ordered by last date, most recent first |
| SessionReports.BlankSearchKeepsAll | components/SessionReportManagement.tsx:28 | a whitespace-only search keeps every client |
| SessionReports.SearchActiveIgnoresCase | components/SessionReportManagement.tsx:28 | whether a search counts does not depend on its letter case |
| SessionReports.SearchIgnoresCase | components/SessionReportManagement.tsx:28-29 | two searches differing only in case list the same clients |
| SessionReports.ClientAppointments | components/SessionReportManagement.tsx:33-36 | no selected client gives nothing; otherwise exactly that client's appointments, each as many times as it is stored, latest date first |
| SessionReports.FindReport | components/SessionReportManagement.tsx:41 | the lookup finds the first note of the appointment, and finds none exactly when there is none |
| SessionReports.OpenEditor | components/SessionReportManagement.tsx:40-48 | the editor opens on the appointment and its client, pre-filled from the appointment's first note or blank when it has none |
| SessionReports.Content | components/SessionReportManagement.tsx:57 | the note text is observations, a newline, evolution, a newline, conduct, and each field sits at its place in the text |
| SessionReports.SplitContent | components/SessionReportManagement.tsx:57 | a text splits into a form exactly when it has at least two line breaks, and the first two fields read are single lines |
| SessionReports.SplitContentJoins | components/SessionReportManagement.tsx:57 | whatever form a text splits into, written back as a note, is that text |
| SessionReports.ContentSplits | components/SessionReportManagement.tsx:57 | a note whose observations and evolution are single lines reads back as the form it was written from |
| SessionReports.HandleSave | components/SessionReportManagement.tsx:50-65 | with nothing being edited nothing changes; otherwise the new note is last, its id is the appointment's id, its text is the three fields joined by newlines, no other note has that appointment, and the notes before it are exactly the notes of other appointments in their original order |
| SessionReports.SaveKeepsOtherNotes | components/SessionReportManagement.tsx:60-62 | saving keeps every note of another appointment as many times as it was stored |
| SessionReports.FilterKeepsOnePerAppointment | components/SessionReportManagement.tsx:61 | removing notes keeps at most one note per appointment |
| SessionReports.SaveKeepsOnePerAppointment | components/SessionReportManagement.tsx:50-65 | saving keeps at most one note per appointment |
| SessionReports.SaveThenOpen | components/SessionReportManagement.tsx:40-63 | reopening a saved note shows exactly the saved fields |
| SessionReports.SaveIdempotent | components/SessionReportManagement.tsx:60-63 | saving the same form twice is saving it once |
| AdminNav.IsActiveLink | components/AdminLayout.tsx:34-38 | the dashboard link is active exactly on "/admin". Any other link is active exactly when the pathname starts with it. A missing pathname activates nothing |
| AdminNav.DashboardNotActiveOnSubPage | components/AdminLayout.tsx:35-37 | the dashboard link is not active on any sub-page such as /admin/schedule |
| AdminNav.SectionActiveBelow | components/AdminLayout.tsx:36 | a section link is active on its page and every page below it |
| AdminNav.SidebarRoutesPrefixFree | components/AdminLayout.tsx:94-115 | no section link is a prefix of another |
| AdminNav.ExactlyOneActive | components/AdminLayout.tsx:34-115 | on the dashboard, or under any section, exactly one sidebar link is active |
| AdminNav.PrefixMatchIgnoresSegments | components/AdminLayout.tsx:36 | the prefix test does not respect path segments: "/admin/tasksX" activates the tasks link |

## Left out

- Persistence: loading and saving the lists in browser storage and their JSON encoding are I/O; the store is an in-memory record. When storage is empty, start-up also seeds demonstration records (two clients, one appointment for the next day, two tasks). The model does not build that seeded store: every property here holds for any store. Only the initial settings, 180 per session and 240 minutes, appear as `DefaultSettings`, because nothing seeds or overrides them on a fresh installation.
- Time zone and clock: the conversion to the salon's local time goes through a platform library. Today's date, the current hour and minute, and the saved note's timestamp are parameters.
- Identifiers: `Date.now()` is read up to three times in one booking. The model uses one stamp `now` for all of them. The identifiers therefore agree more than the source guarantees, and no property here depends on their values or uniqueness.
- Asynchronous flow: the booking page's messages and delay, React state batching, and the stale-closure race between two bookings in one render are outside this sequential model. So are the generated message templates.
- Routing, markup, the carousel and the login flag carry no rules.
- Text.Lower: lower-cases ASCII letters only, not the full Unicode case mapping of `toLowerCase`.
- Text.LexLe: compares Unicode scalar values, as Dafny characters are, not UTF-16 code units and not locale collation. For the digit-and-dash date and time strings the app compares, both orders agree.
- Prices, amounts and durations are integers: fractional values and number parsing beyond "a number or NaN" are not modelled.
- Schedule.TechniqueDefaults: treats every name outside the five techniques as missing from the tables. In JavaScript, `prices[type]` on an object literal also finds inherited properties: for `"constructor"` or `"toString"` the lookup returns a function, which is truthy, so no default is used. The technique buttons send only the five names, so the app never reaches this.
- Schedule.HandleAddAppointment: the source's `type || 'Box Braids'` fallback is not modelled separately, because the form's technique is always one of the five and never empty.
- SessionReports.ContentSplits: holds only when observations and evolution contain no line break. The text areas accept line breaks, and then the note text alone cannot tell where one field ends. The app also stores the three fields beside the text, so nothing is lost.
- Seqs.Sort: proves the result ordered and a permutation, but not that equal keys keep their relative order. `Array.prototype.sort` is stable.
- Schedule.ListingOrder: the agenda sorts the stored list in place while rendering. The model treats the order as a view and leaves the stored list unchanged.
- Schedule.MarkCompletedKeepsAvailability: stated only for appointments that are not cancelled. The agenda offers the action only on scheduled ones, and completing a cancelled appointment would take its slot again.
- Kanban tasks, client editing, finances screens and the dashboard are outside this model. Their records are modelled only as data carried in the store.
