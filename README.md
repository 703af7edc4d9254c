# Hotel booking dashboard: room and booking state model

A Dafny model of the logic core of a resort and hotel room-booking
dashboard. The dashboard shows 88 fixed rooms in three zones: 40 resort
bungalows and two buildings of two floors with 12 rooms each. It resolves
each room's status (available, booked, occupied, cleaning) for today or
for any queried date from the room's list of daily and hourly bookings.
Staff move a room through its stay with a booking modal. A timeline draws
one cell per room and date, and a summary bar counts the rooms in each
status.

Modules, one per source file of the core, plus three support modules:

- `RoomData` (`room_data.dfy`) is the room registry and the status
  resolution engine from `src/data/roomData.js`. The registry is built by
  loops, as the source builds it, and each loop is proved equal to a
  registry function. The resolution engine is pure functions: the active
  booking, the live status, and the status and booking on a date.
- `Users` (`users.dfy`) holds the hard-coded accounts, the credential
  lookup, the login form's trimming of the username, and the `canEdit` and
  `canCancel` checks.
- `AppState` (`app_state.dfy`) is the dashboard component's state. Class
  `Dashboard` holds the room list, the selected room and the modal flag.
  It also has the merge of a partial update into one room and the five
  zone and floor panels.
- `BookingModal` (`booking_modal.dfy`) is the modal. Class `Modal` holds
  the form state and the five action handlers. Each handler calls the
  dashboard's update and close handlers. The module also has the
  status-gated sections as a relation `Offered` and the update each
  action sends (`ActionPatch`).
- `Timeline` (`timeline.dfy`) computes one cell per date of a timeline row.
- `SummaryBar` (`summary_bar.dfy`) is the counting loop over the rooms.
- `Strings` (`strings.dfy`) holds JavaScript string comparison
  (lexicographic), `trim`, and two-digit padding.
- `JsArray` (`js_array.dfy`) is the stable `Array.prototype.sort` with a
  key comparator.
- `Wrappers` (`wrappers.dfy`) is `Option`, used where the source has
  `null`.

Conventions:

- The current date, which the source reads from the clock, is the
  parameter `today`.
- A missing string field (`undefined`, `null` or `''`) is `""`.
- A `null` floor, building or booking is `None`.
- The source's `type` field is `roomType`.
- Statuses, zones, stay types and roles are the source's string
  constants, because a stored room may carry any status string.

The modal keeps the single `room.booking` record the component uses. It
never adds to or removes from the `bookings` array that the resolution
engine reads. The two are modelled separately, exactly as the code has
them.

The model follows the code:

- Creating a booking stores the form in `room.booking`; it does not append
  to `bookings`.
- Check-out and cancel clear `room.booking`; they remove nothing from
  `bookings`.
- There is no continuation booking, no editing of guest information and
  no overlap check.
- An hourly booking's check-out date is whatever is stored. Coverage reads
  only its check-in date.

## Model

| member | source | states |
|---|---|---|
| Strings.Le | src/data/roomData.js:132 | definition of `<=` on strings: the first differing character decides, and a proper prefix is below; properties in LeReflexive, LeAntisymmetric, LeTransitive, LeTotal, LeFirstDifference |
| Strings.Lt | src/data/roomData.js:132 | definition of `<` on strings as `<=` and not equal; property in LtIsNotReverseLe |
| Strings.LeReflexive | src/data/roomData.js:132 | `<=` on strings holds between a string and itself |
| Strings.LeAntisymmetric | src/data/roomData.js:132 | two strings each `<=` the other are equal |
| Strings.LeTransitive | src/data/roomData.js:132 | `<=` on strings is transitive |
| Strings.LeTotal | src/data/roomData.js:103 | the check-in comparator orders any two strings one way or the other |
| Strings.LtIsNotReverseLe | src/data/roomData.js:132 | `d < checkOut` holds exactly when `checkOut <= d` fails |
| Strings.LeFirstDifference | src/data/roomData.js:132 | strings equal up to a position are ordered by their first differing character, strictly |
| Strings.TrimStart | src/components/LoginScreen.jsx:11 | the result is a suffix of the input without leading whitespace, and only whitespace was dropped |
| Strings.TrimEnd | src/components/LoginScreen.jsx:11 | the result is a prefix of the input without trailing whitespace, and only whitespace was dropped |
| Strings.Trim | src/components/LoginScreen.jsx:11 | definition of `trim` as TrimEnd after TrimStart; properties in TrimStart, TrimEnd, TrimEmptyIff |
| Strings.TrimEmptyIff | src/components/BookingModal.jsx:22 | a string trims to `''` exactly when every character is whitespace |
| Strings.Digit | src/data/roomData.js:73 | a digit below 10 prints as the one character `'0'`..`'9'` whose value is that digit |
| Strings.Pad2 | src/data/roomData.js:52 | `padStart(2, '0')` of a number below 100 is two decimal digit characters whose decimal value is the number |
| Strings.Pad2Injective | src/data/roomData.js:52 | different numbers below 100 pad to different strings |
| JsArray.Insert | src/data/roomData.js:103 | inserting keeps every element, adds the new one, and grows the list by one |
| JsArray.InsertHead | src/data/roomData.js:104 | the head after inserting is the new element exactly when the list is empty or its key is not above the old head's |
| JsArray.SortBy | src/data/roomData.js:103 | the sorted list is a permutation of the input |
| JsArray.InsertSorted | src/data/roomData.js:103 | inserting into a list sorted by key keeps it sorted |
| JsArray.SortBySorted | src/data/roomData.js:103 | the sorted list is ascending by key |
| JsArray.InsertWithKey | src/components/Timeline.jsx:119 | inserting puts the element in front of every element with the same key |
| JsArray.SortByStable | src/components/Timeline.jsx:119 | elements with equal keys keep their input order: the stable sort |
| RoomData.StatusesDistinct | src/data/roomData.js:2-7 | the four statuses are different strings |
| RoomData.ZonesDistinct | src/data/roomData.js:30-34 | the three zones are different strings |
| RoomData.GenerateResortRooms | src/data/roomData.js:48-63 | the loop builds exactly the registry's 40 resort rooms `R-01`..`R-40`, in order |
| RoomData.GenerateBuildingRooms | src/data/roomData.js:66-87 | the nested loops build the 24 rooms of a building, floor 1 then floor 2, rooms 1..12 on each |
| RoomData.GenerateAllRooms | src/data/roomData.js:90-96 | the registry is resort rooms, then building A, then building B |
| RoomData.AllRoomsLayout | src/data/roomData.js:90-96 | there are 88 rooms; indices 0..39 are the resort rooms, 40..63 building A by floor and number, 64..87 building B |
| RoomData.AllRoomsInitialState | src/data/roomData.js:48-87 | every room starts available, with no bookings and no booking, its number equal to its id; floor and building are null exactly for the resort |
| RoomData.AllRoomsNumbering | src/data/roomData.js:52-53 | the first and last ids of each block are `R-01`, `R-40`, `A101`, `A112`, `A201`, `A212`, `B101`, `B112`, `B201`, `B212` |
| RoomData.AllRoomIdsDistinct | src/data/roomData.js:48-96 | no two generated rooms share an id |
| RoomData.ActiveBooking | src/data/roomData.js:99-105 | definition of `getActiveBooking`: the head of the active bookings sorted by check-in; properties in ActiveBookingIsEarliest, ActiveBookingTieBreak |
| RoomData.ActiveOnly | src/data/roomData.js:101-102 | the filter keeps exactly the booked and occupied bookings |
| RoomData.ActiveBookingIsEarliest | src/data/roomData.js:99-105 | null exactly when no booking is booked or occupied; otherwise a stored booked or occupied booking whose check-in is at or before every other such booking's |
| RoomData.SortedActiveHead | src/data/roomData.js:101-104 | the head of the sorted active list is the earliest active booking stored first |
| RoomData.ActiveBookingTieBreak | src/data/roomData.js:103-104 | among active bookings with the earliest check-in, the one stored first is returned |
| RoomData.LaterStoredEarlierStay | src/data/roomData.js:99-105 | of two active bookings, the second is returned when it checks in strictly earlier |
| RoomData.EarlierStayIsActive | src/data/roomData.js:99-105 | a May stay stored after a June stay is the active booking |
| RoomData.HasStatus | src/data/roomData.js:109-110 | `some` holds exactly when a booking has the status |
| RoomData.ComputeRoomStatus | src/data/roomData.js:108-112 | occupied if any booking is occupied; else booked if any is booked; else the stored status |
| RoomData.Covers | src/data/roomData.js:128-133 | definition of the window test shared by both date lookups (also lines 144-148); properties in CoverageRule, DailyWindow |
| RoomData.CoverageRule | src/data/roomData.js:128-133 | no check-in covers nothing; hourly covers only its check-in date; daily with check-out covers `checkIn <= d < checkOut` and never the check-out date; daily without covers only check-in |
| RoomData.FirstCovering | src/data/roomData.js:128-133 | `find` is null exactly when nothing covers the date, else a stored covering booking |
| RoomData.FirstCoveringIsFirst | src/data/roomData.js:128 | `find` returns the covering booking with the smallest index |
| RoomData.RoomStatusOnDate | src/data/roomData.js:118-137 | on today, the live status; on other dates never cleaning, available exactly when nothing covers the date, otherwise occupied or booked |
| RoomData.BookingOnDate | src/data/roomData.js:140-150 | on today, the active booking; on other dates null exactly when nothing covers the date, else a stored covering booking |
| RoomData.StatusOnDateFirstMatch | src/data/roomData.js:128-136 | on other dates both lookups use the first covering booking: occupied if it is occupied, booked for any other status |
| RoomData.StatusAndBookingAgree | src/data/roomData.js:118-150 | on other dates the booking is null exactly when the status is available, and occupied exactly when the status is occupied |
| RoomData.SingleStayStatus | src/data/roomData.js:125-136 | with one stored booking, the status on another date is available, occupied or booked by coverage and that booking's status |
| RoomData.DailyWindow | src/data/roomData.js:131-132 | a daily stay covers every date from check-in up to, not including, check-out |
| RoomData.StayNightsScenario | src/data/roomData.js:125-136 | a June 1 to June 3 booked stay shows booked on June 1 and June 2 |
| RoomData.TurnoverDayScenario | src/data/roomData.js:125-136 | the same stay shows available on its turnover day June 3 and on May 31 |
| RoomData.HourlySlotScenario | src/data/roomData.js:130 | an hourly booking on June 1 shows booked on that date and available on every other |
| Users.Authenticate | src/data/users.js:13-15 | definition of `authenticate` as the lookup in the account list; properties in AuthenticateSound, AuthenticateComplete |
| Users.CanEdit | src/data/users.js:17-19 | definition of `canEdit`: a user with role admin or staff; properties in Capabilities, LoggedInCapabilities |
| Users.CanCancel | src/data/users.js:21-23 | definition of `canCancel`: a user with role admin; properties in Capabilities, LoggedInCapabilities |
| Users.FindUser | src/data/users.js:14 | a result is a listed user with that id and password; null exactly when none matches |
| Users.FindUserUnique | src/data/users.js:14 | with distinct ids, a listed user's own credentials find that user |
| Users.UsersDistinctIds | src/data/users.js:7-11 | the three account ids are distinct |
| Users.AuthenticateSound | src/data/users.js:13-15 | `authenticate` returns only a listed user whose id and password both match, null exactly when none does |
| Users.AuthenticateComplete | src/data/users.js:7-15 | every listed account logs in with its own credentials and yields itself |
| Users.Login | src/components/LoginScreen.jsx:11 | the trimmed username and the untrimmed password select the one matching account, if any |
| Users.Capabilities | src/data/users.js:17-23 | the guest can neither edit nor cancel; cancel implies edit; staff edit but do not cancel; admin do both |
| Users.LoggedInCapabilities | src/data/users.js:7-23 | every account that logs in can edit; only the `admin` id can cancel |
| AppState.Merge | src/App.jsx:35 | definition of `{ ...r, ...updates }`; properties in MergeFields |
| AppState.ApplyUpdate | src/App.jsx:35 | definition of the `map` over the room list; properties in ApplyUpdateShape, ApplyUpdateMissingId, ApplyUpdateIdempotent, ApplyUpdateCommutes |
| AppState.MergeFields | src/App.jsx:35 | keys present in the update take its values; every other field keeps its old value |
| AppState.ApplyUpdateShape | src/App.jsx:34-36 | the list keeps its length, order and ids; rooms with other ids are unchanged; the matching room gets the merge |
| AppState.ApplyUpdateMissingId | src/App.jsx:35 | an id no room has leaves the list unchanged |
| AppState.ApplyUpdateIdempotent | src/App.jsx:35 | applying the same update twice equals applying it once |
| AppState.ApplyUpdateCommutes | src/App.jsx:33-37 | updates to two different rooms commute |
| AppState.InPanel | src/App.jsx:39-43 | definition of the five zone and floor filter conditions; properties in PanelsDisjoint, PanelsPartitionRegistry |
| AppState.PanelRooms | src/App.jsx:39-43 | a panel holds exactly the rooms of its zone and floor, no more than the list |
| AppState.PanelRoomsAppend | src/App.jsx:39-43 | filtering a concatenation concatenates the filtered parts |
| AppState.PanelsDisjoint | src/App.jsx:39-43 | no room is in two of the five panels |
| AppState.BlockInPanel | src/App.jsx:39-43 | each generated block of rooms lies in its panel |
| AppState.PanelSize | src/App.jsx:39-43 | a panel of the generated rooms is as large as its block |
| AppState.PanelsPartitionRegistry | src/App.jsx:39-43 | on the generated rooms the panels hold 40, 12, 12, 12 and 12 rooms and every room is in one |
| AppState.Dashboard.constructor | src/App.jsx:18-21 | the dashboard starts with the generated rooms, nothing selected and the modal closed |
| AppState.Dashboard.RoomClick | src/App.jsx:23-26 | a click selects the room and opens the modal |
| AppState.Dashboard.ModalClose | src/App.jsx:28-31 | closing clears the selection and the modal flag |
| AppState.Dashboard.UpdateRoom | src/App.jsx:33-37 | the room list becomes the merged list; selection and modal flag are unchanged, so the modal stays open exactly when a room is selected |
| BookingModal.Offered | src/components/BookingModal.jsx:82-209 | definition of the status gates of the four action sections; properties in OfferedByStatus, ActionEffect |
| BookingModal.ActionPatch | src/components/BookingModal.jsx:30-61 | definition of the update each handler sends; properties in ActionEffect, StayCycle, ReopenShowsBooking |
| BookingModal.WithText | src/components/BookingModal.jsx:16-19 | definition of `{ ...prev, [name]: value }` per text input; the Modal.Change method's update |
| BookingModal.OfferedByStatus | src/components/BookingModal.jsx:82-209 | book only when available; check-in and cancel only when booked with a booking; check-out only when occupied; cleaned only when cleaning |
| BookingModal.ActionEffect | src/components/BookingModal.jsx:30-61 | each offered action moves along available→booked, booked→occupied, booked→available, occupied→cleaning or cleaning→available, with its own booking effect and next actions |
| BookingModal.StayCycle | src/components/BookingModal.jsx:21-61 | book, check in, check out, cleaned, and also book then cancel, restore an available room without booking |
| BookingModal.InitialForm | src/components/BookingModal.jsx:7-14 | prefilled from the room's booking with the `\|\|` fallbacks, else empty fields with check-in today and one adult |
| BookingModal.CheckForm | src/components/BookingModal.jsx:21-29 | refused for a name of only whitespace, then for a missing check-out, else confirmed |
| BookingModal.ReopenShowsBooking | src/components/BookingModal.jsx:7-33 | reopening a room booked from a form with check-in and guest count set shows the same form, before and after check-in |
| BookingModal.Modal.constructor | src/components/BookingModal.jsx:6-14 | the form starts as the initial form of the room |
| BookingModal.Modal.Change | src/components/BookingModal.jsx:16-19 | a text input overwrites its own field only |
| BookingModal.Modal.ChangeAdults | src/components/BookingModal.jsx:16-19 | the guest-count input overwrites the count only |
| BookingModal.Modal.HandleBook | src/components/BookingModal.jsx:21-35 | a refused form changes nothing; a confirmed one sets status booked with a copy of the form, then closes the modal |
| BookingModal.Modal.HandleCheckIn | src/components/BookingModal.jsx:37-40 | sends only status occupied, so the booking is kept, then closes |
| BookingModal.Modal.HandleCheckOut | src/components/BookingModal.jsx:42-48 | sets cleaning and clears the booking, then closes |
| BookingModal.Modal.HandleCleaned | src/components/BookingModal.jsx:50-53 | sets available and leaves the booking as it was, then closes |
| BookingModal.Modal.HandleCancel | src/components/BookingModal.jsx:55-61 | sets available and clears the booking, then closes |
| Timeline.CoversDaily | src/components/Timeline.jsx:110-114 | definition of the daily-booking test; properties in DailyCoverageAgrees, DailyBlockRule |
| Timeline.RoomCell | src/components/Timeline.jsx:110-157 | definition of a cell: the empty cell, or the daily block and the sorted hourly list; properties in EmptyCellIff, DailyBlockRule, LabelOnStartDateOnly, HourlyList |
| Timeline.FirstDaily | src/components/Timeline.jsx:110-114 | null exactly when no stored booking qualifies as daily on the date, else a qualifying stored booking |
| Timeline.FirstDailyIsFirst | src/components/Timeline.jsx:110 | the daily booking is the qualifying booking with the smallest index |
| Timeline.HourlyOn | src/components/Timeline.jsx:117-118 | the filter keeps exactly the hourly bookings checking in on the date |
| Timeline.HourlyOnCount | src/components/Timeline.jsx:117-118 | each hourly booking of the date occurs as often as stored, every other booking not at all |
| Timeline.RoomRow | src/components/Timeline.jsx:108-159 | one cell per date, in date order; each cell is empty exactly when no booking is daily or hourly on its date, its daily block is the first daily booking, and its hourly list is the date's hourly bookings, a permutation, ascending by check-in time |
| Timeline.HourlyCellIsSorted | src/components/Timeline.jsx:117-119 | a cell's hourly list is a permutation of the date's hourly bookings, ascending by check-in time |
| Timeline.EmptyCellIff | src/components/Timeline.jsx:121-127 | a cell is empty exactly when no booking qualifies as daily and none is hourly on the date; its daily block is the first qualifying booking |
| Timeline.DailyBlockRule | src/components/Timeline.jsx:110-114 | the daily block's booking is stored, not hourly, has a check-in, and has the date in its window |
| Timeline.LabelOnStartDateOnly | src/components/Timeline.jsx:133-141 | the guest name is shown exactly on the booking's check-in date |
| Timeline.HourlyList | src/components/Timeline.jsx:117-119 | the hourly list has the date's hourly bookings with their stored multiplicity, ascending by check-in time, ties in stored order |
| Timeline.DailyCoverageAgrees | src/components/Timeline.jsx:110-114 | hourly bookings never qualify; others qualify exactly when they cover the date in the room's date lookup |
| Timeline.FirstDailyIsFirstCovering | src/components/Timeline.jsx:110-114 | without hourly bookings the timeline's `find` and the date lookup's `find` return the same booking |
| Timeline.TimelineMatchesDateLookup | src/components/Timeline.jsx:110-114 | without hourly bookings, on a date other than today, the daily block shows the booking the date lookup returns |
| SummaryBar.CountWithStatus | src/components/SummaryBar.jsx:11-13 | a counter never exceeds the number of rooms |
| SummaryBar.InitialCounts | src/components/SummaryBar.jsx:4-9 | the four counters start at 0 and are the only keys |
| SummaryBar.CountStatuses | src/components/SummaryBar.jsx:4-13 | after the loop the keys are the four statuses, each holding the number of rooms with that status |
| SummaryBar.UnknownStatusIgnored | src/components/SummaryBar.jsx:12 | a room whose status is not a key changes no counter |
| SummaryBar.TotalBound | src/components/SummaryBar.jsx:11-26 | the four counts add up to at most the displayed total, and to exactly it when every status is one of the keys |
| SummaryBar.UniformCount | src/components/SummaryBar.jsx:11-13 | when every room has one status, its counter is the number of rooms |
| SummaryBar.FreshRegistryCounts | src/components/SummaryBar.jsx:4-13 | on the generated rooms 88 are available and the counts add up to 88 |

## Left out

- Persistence (the Supabase client, seeding, realtime subscription and writes) and browser storage are not modelled. Their only pure step re-applies the live status, which `RoomData.ComputeRoomStatus` covers.
- The clock is left out: "today" is a parameter.
- Date arithmetic (`addDays`), building the timeline's date window, and moving the window start (`goBack`, `goFwd`, `goToday`) are left out. They depend on time-zone-sensitive `Date` arithmetic.
- `formatDate` and `formatShort` are left out; they are locale formatting.
- `newBookingId` is left out: it reads the clock and a random source. Booking ids are opaque strings.
- Rendering is left out: the JSX, the colour and label tables, `RoomCard`, `StatusLegend`, and the display counts in `ResortZone` and `BuildingZone`.
- The login screen is reduced to its trimming of the username.
- The dashboard's tab selection (`activeTab`) only chooses which panels are drawn, so it is left out.
- AppState.Patch: an update object has only the two keys the modal sends, `status` and `booking`. Updates to other room fields are not modelled.
- BookingModal.Modal.ChangeAdults: the guest count is an `int`. The source's input hands the handler the field's text, so `'0'` (truthy in JavaScript) is not distinguished from `0` when the form is prefilled.
- The `min` attributes of the modal's date and number inputs are browser-side constraints and are not modelled.
- SummaryBar.CountStatuses: a room status that names a property inherited by every JavaScript object (such as `"constructor"`) would pass the `!== undefined` test in the source. The model counts only the four own keys.
- Strings.Le: `localeCompare` is modelled as code-point order. This agrees with locale collation on the ISO dates and `HH:MM` times it sorts here, but not on arbitrary text. Characters outside the basic plane are single characters here, not UTF-16 pairs.
- Booking fields the modelled code never reads (phone, adults, note, car plate and province, booked-by) are not in `RoomData.Booking`. The modal's booking record `RoomData.BookingForm` has the form's six fields.
- Continuation bookings, editing of guest information, removing a `bookings` entry on check-out or cancel, overlap validation and optimistic concurrency do not occur in the code and are not modelled.
- The security of the hard-coded passwords is out of scope; only the lookup is modelled.
