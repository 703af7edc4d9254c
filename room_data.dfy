/**
 * The room registry and the status resolution engine of the dashboard.
 *
 * Enumerations are kept as the string constants the program compares
 * against, because a stored room may carry any status string and the
 * resolution falls back to it. A missing string field of a record
 * (`undefined`, `null` or `''`, all falsy) is the empty string here.
 * The current calendar date, read from the clock by the program, is the
 * parameter `today`.
 */
module RoomData {
  import opened Wrappers
  import opened Strings
  import opened JsArray

  // STATUS
  const AVAILABLE: string := "available"
  const BOOKED: string := "booked"
  const OCCUPIED: string := "occupied"
  const CLEANING: string := "cleaning"

  // ZONES
  const RESORT: string := "resort"
  const BUILDING_A: string := "building_a"
  const BUILDING_B: string := "building_b"

  // STAY_TYPE
  const DAILY: string := "daily"
  const HOURLY: string := "hourly"

  lemma StatusesDistinct()
    ensures AVAILABLE != BOOKED && AVAILABLE != OCCUPIED && AVAILABLE != CLEANING
    ensures BOOKED != OCCUPIED && BOOKED != CLEANING && OCCUPIED != CLEANING
  {
    assert OCCUPIED[0] != CLEANING[0];
  }

  lemma ZonesDistinct()
    ensures RESORT != BUILDING_A && RESORT != BUILDING_B && BUILDING_A != BUILDING_B
  {
    assert BUILDING_A[9] != BUILDING_B[9];
  }

  /**
   * An entry of a room's `bookings` array, with the fields the engine
   * reads. Any `stayType` other than `"hourly"` (a missing one included)
   * is treated as a daily stay.
   */
  datatype Booking = Booking(
    id: string,
    guestName: string,
    checkIn: string,
    checkOut: string,
    checkInTime: string,
    checkOutTime: string,
    stayType: string,
    status: string)

  /** The single record the booking modal keeps in `room.booking`: a copy of its form. */
  datatype BookingForm = BookingForm(
    guestName: string,
    phone: string,
    checkIn: string,
    checkOut: string,
    adults: int,
    note: string)

  /** A room; `roomType` is the record's `type` field. */
  datatype Room = Room(
    id: string,
    number: string,
    zone: string,
    roomType: string,
    floor: Option<int>,
    building: Option<string>,
    status: string,
    bookings: seq<Booking>,
    booking: Option<BookingForm>)

  // ---------------------------------------------------------------- registry

  /** The resort bungalow numbered `i`. */
  function ResortRoom(i: nat): Room
    requires i < 100
  {
    var id := "R-" + Pad2(i);
    Room(id, id, RESORT, "บ้านหลัง", None, None, AVAILABLE, [], None)
  }

  /** What `generateResortRooms` returns: bungalows 1 to 40 in order. */
  function ResortRooms(): seq<Room>
  {
    seq(40, k requires 0 <= k < 40 => ResortRoom(k + 1))
  }

  method GenerateResortRooms() returns (rooms: seq<Room>)
    ensures rooms == ResortRooms()
  {
    rooms := [];
    var i := 1;
    while i <= 40
      invariant 1 <= i <= 41
      invariant rooms == ResortRooms()[..i - 1]
    {
      rooms := rooms + [ResortRoom(i)];
      i := i + 1;
    }
  }

  function BuildingPrefix(building: string): char
  {
    if building == "A" then 'A' else 'B'
  }

  function BuildingZone(building: string): string
  {
    if building == "A" then BUILDING_A else BUILDING_B
  }

  /** Room `num` on floor `floor` of `building`: number prefix, floor digit, two-digit room number. */
  function BuildingRoom(building: string, floor: nat, num: nat): Room
    requires floor < 10 && num < 100
  {
    var roomNum := [BuildingPrefix(building), Digit(floor)] + Pad2(num);
    Room(roomNum, roomNum, BuildingZone(building), "ห้องพัก", Some(floor), Some("ตึก " + building),
         AVAILABLE, [], None)
  }

  /** What `generateBuildingRooms(building)` returns: floors 1 and 2, rooms 1 to 12 on each. */
  function BuildingRooms(building: string): seq<Room>
  {
    seq(24, k requires 0 <= k < 24 => BuildingRoom(building, k / 12 + 1, k % 12 + 1))
  }

  method GenerateBuildingRooms(building: string) returns (rooms: seq<Room>)
    ensures rooms == BuildingRooms(building)
  {
    rooms := [];
    var floor := 1;
    while floor <= 2
      invariant 1 <= floor <= 3
      invariant rooms == BuildingRooms(building)[..12 * (floor - 1)]
    {
      var num := 1;
      while num <= 12
        invariant 1 <= num <= 13
        invariant rooms == BuildingRooms(building)[..12 * (floor - 1) + num - 1]
      {
        rooms := rooms + [BuildingRoom(building, floor, num)];
        num := num + 1;
      }
      floor := floor + 1;
    }
  }

  /** What `generateAllRooms` returns. */
  function AllRooms(): seq<Room>
  {
    ResortRooms() + BuildingRooms("A") + BuildingRooms("B")
  }

  method GenerateAllRooms() returns (rooms: seq<Room>)
    ensures rooms == AllRooms()
  {
    var resort := GenerateResortRooms();
    var a := GenerateBuildingRooms("A");
    var b := GenerateBuildingRooms("B");
    rooms := resort + a + b;
  }

  /** Where each room sits in the registry. */
  lemma AllRoomsLayout()
    ensures |AllRooms()| == 88
    ensures forall i :: 0 <= i < 40 ==> AllRooms()[i] == ResortRoom(i + 1)
    ensures forall i :: 40 <= i < 64 ==> AllRooms()[i] == BuildingRoom("A", (i - 40) / 12 + 1, (i - 40) % 12 + 1)
    ensures forall i :: 64 <= i < 88 ==> AllRooms()[i] == BuildingRoom("B", (i - 64) / 12 + 1, (i - 64) % 12 + 1)
  {
  }

  /** Every generated room starts available, with no bookings; resort rooms have no floor and no building. */
  lemma AllRoomsInitialState()
    ensures forall r :: r in AllRooms() ==>
      r.status == AVAILABLE && r.bookings == [] && r.booking == None && r.number == r.id
    ensures forall r :: r in AllRooms() ==>
      (r.zone == RESORT <==> r.floor == None) && (r.zone == RESORT <==> r.building == None)
  {
    AllRoomsLayout();
    ZonesDistinct();
    forall r | r in AllRooms()
      ensures r.status == AVAILABLE && r.bookings == [] && r.booking == None && r.number == r.id
      ensures (r.zone == RESORT <==> r.floor == None) && (r.zone == RESORT <==> r.building == None)
    {
      var i :| 0 <= i < 88 && AllRooms()[i] == r;
    }
  }

  /** The first and last number of each block: R-01..R-40, A101..A112, A201..A212, B101..B112, B201..B212. */
  lemma AllRoomsNumbering()
    ensures AllRooms()[0].id == "R-01" && AllRooms()[39].id == "R-40"
    ensures AllRooms()[40].id == "A101" && AllRooms()[51].id == "A112"
    ensures AllRooms()[52].id == "A201" && AllRooms()[63].id == "A212"
    ensures AllRooms()[64].id == "B101" && AllRooms()[75].id == "B112"
    ensures AllRooms()[76].id == "B201" && AllRooms()[87].id == "B212"
  {
    AllRoomsLayout();
  }

  ghost function DigitValue(c: char): int
  {
    c as int - 48
  }

  /** Recovers a generated room's position in the registry from its id. */
  ghost function RoomSlot(id: string): int
  {
    if |id| != 4 then -1
    else
      var n := 10 * DigitValue(id[2]) + DigitValue(id[3]);
      if id[0] == 'R' then n - 1
      else (if id[0] == 'A' then 40 else 64) + 12 * (DigitValue(id[1]) - 1) + n - 1
  }

  /** No two generated rooms share an id, so an id names exactly one room. */
  lemma AllRoomIdsDistinct()
    ensures forall i, j :: 0 <= i < j < |AllRooms()| ==> AllRooms()[i].id != AllRooms()[j].id
  {
    AllRoomsLayout();
    forall i | 0 <= i < 88 ensures RoomSlot(AllRooms()[i].id) == i {
      var id := AllRooms()[i].id;
      if i < 40 {
        assert id[0] == 'R' && id[2] == Digit((i + 1) / 10) && id[3] == Digit((i + 1) % 10);
      } else if i < 64 {
        var f, n := (i - 40) / 12 + 1, (i - 40) % 12 + 1;
        assert id[0] == 'A' && id[1] == Digit(f) && id[2] == Digit(n / 10) && id[3] == Digit(n % 10);
      } else {
        var f, n := (i - 64) / 12 + 1, (i - 64) % 12 + 1;
        assert id[0] == 'B' && id[1] == Digit(f) && id[2] == Digit(n / 10) && id[3] == Digit(n % 10);
      }
    }
  }

  // ------------------------------------------------------ active booking

  /** A booking that is booked or occupied. */
  predicate IsActive(b: Booking)
  {
    b.status == BOOKED || b.status == OCCUPIED
  }

  /** `bookings.filter(b => b.status === BOOKED || b.status === OCCUPIED)`. */
  function ActiveOnly(s: seq<Booking>): (r: seq<Booking>)
    ensures forall b :: b in r <==> b in s && IsActive(b)
  {
    if |s| == 0 then []
    else (if IsActive(s[0]) then [s[0]] else []) + ActiveOnly(s[1..])
  }

  /** The sort key `b.checkIn || ''`; a missing check-in date is already `""`. */
  function CheckInKey(b: Booking): string
  {
    b.checkIn
  }

  /** `getActiveBooking(room)`. */
  function ActiveBooking(room: Room): Option<Booking>
  {
    if |room.bookings| == 0 then None
    else
      var active := SortBy(ActiveOnly(room.bookings), CheckInKey);
      if |active| == 0 then None else Some(active[0])
  }

  /** Index `i` holds the earliest active booking, and no active booking before it has the same check-in date. */
  ghost predicate EarliestActiveAt(s: seq<Booking>, i: int)
  {
    && 0 <= i < |s| && IsActive(s[i])
    && (forall j :: 0 <= j < |s| && IsActive(s[j]) ==> Le(s[i].checkIn, s[j].checkIn))
    && (forall j :: 0 <= j < i && IsActive(s[j]) ==> !Le(s[j].checkIn, s[i].checkIn))
  }

  /**
   * There is no active booking exactly when none is booked or occupied;
   * otherwise it is one of the room's booked or occupied bookings, with a
   * check-in date at or before every other such booking's.
   */
  lemma ActiveBookingIsEarliest(room: Room)
    ensures ActiveBooking(room).None? <==> forall b :: b in room.bookings ==> !IsActive(b)
    ensures ActiveBooking(room).Some? ==>
      var b := ActiveBooking(room).value;
      && b in room.bookings && IsActive(b)
      && forall e :: e in room.bookings && IsActive(e) ==> Le(b.checkIn, e.checkIn)
  {
    var filtered := ActiveOnly(room.bookings);
    var sorted := SortBy(filtered, CheckInKey);
    if |sorted| == 0 {
      assert multiset(filtered) == multiset{};
    } else {
      SortBySorted(filtered, CheckInKey);
      assert sorted[0] in multiset(filtered);
      assert sorted[0] in filtered;
      forall e | e in room.bookings && IsActive(e) ensures Le(sorted[0].checkIn, e.checkIn) {
        assert e in multiset(sorted);
        var j :| 0 <= j < |sorted| && sorted[j] == e;
        if j == 0 {
          LeReflexive(e.checkIn);
        }
      }
    }
  }

  lemma {:induction false} SortedActiveHead(s: seq<Booking>, i: int)
    requires EarliestActiveAt(s, i)
    ensures |SortBy(ActiveOnly(s), CheckInKey)| > 0 && SortBy(ActiveOnly(s), CheckInKey)[0] == s[i]
  {
    if i == 0 {
      SortedActiveFirst(s);
    } else {
      RestEarliest(s, i);
      SortedActiveHead(s[1..], i - 1);
      SortedActiveLater(s, i);
    }
  }

  /** The earliest active booking is the head of the list: it goes in front of the sorted rest. */
  lemma SortedActiveFirst(s: seq<Booking>)
    requires EarliestActiveAt(s, 0)
    ensures |SortBy(ActiveOnly(s), CheckInKey)| > 0 && SortBy(ActiveOnly(s), CheckInKey)[0] == s[0]
  {
    ActiveSortCons(s);
    RestNotBefore(s);
    InsertHead(s[0], SortBy(ActiveOnly(s[1..]), CheckInKey), CheckInKey);
  }

  /** A head that is not the earliest active booking is inserted behind it, or filtered out. */
  lemma SortedActiveLater(s: seq<Booking>, i: int)
    requires EarliestActiveAt(s, i) && i > 0
    requires |SortBy(ActiveOnly(s[1..]), CheckInKey)| > 0 && SortBy(ActiveOnly(s[1..]), CheckInKey)[0] == s[i]
    ensures |SortBy(ActiveOnly(s), CheckInKey)| > 0 && SortBy(ActiveOnly(s), CheckInKey)[0] == s[i]
  {
    var t := SortBy(ActiveOnly(s[1..]), CheckInKey);
    if IsActive(s[0]) {
      ActiveSortCons(s);
      assert !Le(s[0].checkIn, s[i].checkIn);
      InsertHead(s[0], t, CheckInKey);
    } else {
      assert ActiveOnly(s) == ActiveOnly(s[1..]);
    }
  }

  /** Sorting the active bookings of `s` inserts an active head into the sorted rest. */
  lemma ActiveSortCons(s: seq<Booking>)
    requires |s| > 0 && IsActive(s[0])
    ensures SortBy(ActiveOnly(s), CheckInKey) == Insert(s[0], SortBy(ActiveOnly(s[1..]), CheckInKey), CheckInKey)
  {
    var u := ActiveOnly(s);
    assert u == [s[0]] + ActiveOnly(s[1..]);
    assert u[1..] == ActiveOnly(s[1..]);
  }

  /** When the head is the earliest active booking, it is not later than the head of the sorted rest. */
  lemma RestNotBefore(s: seq<Booking>)
    requires EarliestActiveAt(s, 0)
    ensures var t := SortBy(ActiveOnly(s[1..]), CheckInKey);
      |t| > 0 ==> Le(CheckInKey(s[0]), CheckInKey(t[0]))
  {
    var rest := s[1..];
    var t := SortBy(ActiveOnly(rest), CheckInKey);
    if |t| > 0 {
      assert t[0] in multiset(ActiveOnly(rest));
      assert t[0] in rest && IsActive(t[0]);
      var j :| 0 <= j < |rest| && rest[j] == t[0];
      assert s[j + 1] == t[0];
    }
  }

  lemma RestEarliest(s: seq<Booking>, i: int)
    requires EarliestActiveAt(s, i) && i > 0
    ensures EarliestActiveAt(s[1..], i - 1)
  {
    var rest := s[1..];
    assert rest[i - 1] == s[i];
    forall j | 0 <= j < |rest| && IsActive(rest[j]) ensures Le(rest[i - 1].checkIn, rest[j].checkIn) {
      assert rest[j] == s[j + 1];
    }
    forall j | 0 <= j < i - 1 && IsActive(rest[j]) ensures !Le(rest[j].checkIn, rest[i - 1].checkIn) {
      assert rest[j] == s[j + 1];
    }
  }

  /** Ties on the check-in date go to the booking stored first, as the stable sort keeps it first. */
  lemma ActiveBookingTieBreak(room: Room, i: int)
    requires EarliestActiveAt(room.bookings, i)
    ensures ActiveBooking(room) == Some(room.bookings[i])
  {
    SortedActiveHead(room.bookings, i);
  }

  // --------------------------------------------------------- live status

  /** `bookings.some(b => b.status === status)`. */
  function HasStatus(s: seq<Booking>, status: string): (r: bool)
    ensures r <==> exists b :: b in s && b.status == status
  {
    if |s| == 0 then false
    else s[0].status == status || HasStatus(s[1..], status)
  }

  /** `computeRoomStatus(room)`: the status shown for today. */
  function ComputeRoomStatus(room: Room): (r: string)
    ensures (exists b :: b in room.bookings && b.status == OCCUPIED) ==> r == OCCUPIED
    ensures ((forall b :: b in room.bookings ==> b.status != OCCUPIED)
             && (exists b :: b in room.bookings && b.status == BOOKED)) ==> r == BOOKED
    ensures (forall b :: b in room.bookings ==> b.status != OCCUPIED && b.status != BOOKED) ==> r == room.status
  {
    if HasStatus(room.bookings, OCCUPIED) then OCCUPIED
    else if HasStatus(room.bookings, BOOKED) then BOOKED
    else room.status
  }

  // ------------------------------------------------------ status on a date

  /** The window test shared by `getRoomStatusOnDate` and `getBookingOnDate`. */
  predicate Covers(b: Booking, date: string)
  {
    if b.checkIn == "" then false
    else if b.stayType == HOURLY then b.checkIn == date
    else
      var checkOut := if b.checkOut != "" then b.checkOut else b.checkIn;
      Le(b.checkIn, date) && (if b.checkOut != "" then Lt(date, checkOut) else Le(date, checkOut))
  }

  /**
   * A booking without a check-in date covers nothing; an hourly booking
   * covers its check-in date only; a daily booking covers the dates from
   * its check-in up to but not including its check-out (the check-out
   * date is a free turnover day), or its check-in date alone when it has
   * no check-out date.
   */
  lemma CoverageRule(b: Booking, date: string)
    ensures b.checkIn == "" ==> !Covers(b, date)
    ensures b.checkIn != "" && b.stayType == HOURLY ==> (Covers(b, date) <==> date == b.checkIn)
    ensures b.checkIn != "" && b.stayType != HOURLY && b.checkOut != "" ==>
      (Covers(b, date) <==> Le(b.checkIn, date) && Lt(date, b.checkOut))
    ensures b.checkIn != "" && b.stayType != HOURLY && b.checkOut != "" ==> !Covers(b, b.checkOut)
    ensures b.checkIn != "" && b.stayType != HOURLY && b.checkOut == "" ==> (Covers(b, date) <==> date == b.checkIn)
  {
    if Le(b.checkIn, date) && Le(date, b.checkIn) {
      LeAntisymmetric(b.checkIn, date);
    }
    LeReflexive(b.checkIn);
  }

  /** `(room.bookings || []).find(b => Covers(b, date))`. */
  function FirstCovering(s: seq<Booking>, date: string): (r: Option<Booking>)
    ensures r.None? <==> forall b :: b in s ==> !Covers(b, date)
    ensures r.Some? ==> r.value in s && Covers(r.value, date)
  {
    if |s| == 0 then None
    else if Covers(s[0], date) then Some(s[0])
    else FirstCovering(s[1..], date)
  }

  /** Index `k` holds the first booking, in stored order, that covers `date`. */
  ghost predicate FirstCoveringAt(s: seq<Booking>, date: string, k: int)
  {
    0 <= k < |s| && Covers(s[k], date) && forall j :: 0 <= j < k ==> !Covers(s[j], date)
  }

  /** When several bookings cover a date, the one stored first wins. */
  lemma {:induction false} FirstCoveringIsFirst(s: seq<Booking>, date: string, k: int)
    requires FirstCoveringAt(s, date, k)
    ensures FirstCovering(s, date) == Some(s[k])
  {
    if k > 0 {
      assert !Covers(s[0], date);
      FirstCoveringIsFirst(s[1..], date, k - 1);
    }
  }

  /** `getRoomStatusOnDate(room, date)`. */
  function RoomStatusOnDate(room: Room, date: string, today: string): (r: string)
    ensures date == today ==> r == ComputeRoomStatus(room)
    ensures date != today ==> r != CLEANING
    ensures date != today ==> (r == AVAILABLE <==> forall b :: b in room.bookings ==> !Covers(b, date))
    ensures date != today && r != AVAILABLE ==> (r == OCCUPIED || r == BOOKED)
  {
    StatusesDistinct();
    if date == today then ComputeRoomStatus(room)
    else
      match FirstCovering(room.bookings, date)
      case None => AVAILABLE
      case Some(b) => if b.status == OCCUPIED then OCCUPIED else BOOKED
  }

  /** `getBookingOnDate(room, date)`. */
  function BookingOnDate(room: Room, date: string, today: string): (r: Option<Booking>)
    ensures date == today ==> r == ActiveBooking(room)
    ensures date != today ==> (r.None? <==> forall b :: b in room.bookings ==> !Covers(b, date))
    ensures date != today && r.Some? ==> r.value in room.bookings && Covers(r.value, date)
  {
    if date == today then ActiveBooking(room)
    else FirstCovering(room.bookings, date)
  }

  /**
   * On any date other than today both queries resolve to the first covering
   * booking in stored order: the status is occupied when that booking is
   * occupied and booked for any other booking status.
   */
  lemma StatusOnDateFirstMatch(room: Room, date: string, today: string, k: int)
    requires date != today && FirstCoveringAt(room.bookings, date, k)
    ensures BookingOnDate(room, date, today) == Some(room.bookings[k])
    ensures RoomStatusOnDate(room, date, today) == if room.bookings[k].status == OCCUPIED then OCCUPIED else BOOKED
  {
    FirstCoveringIsFirst(room.bookings, date, k);
  }

  /** The two date queries agree: no booking exactly when available, an occupied booking exactly when occupied. */
  lemma StatusAndBookingAgree(room: Room, date: string, today: string)
    requires date != today
    ensures BookingOnDate(room, date, today).None? <==> RoomStatusOnDate(room, date, today) == AVAILABLE
    ensures BookingOnDate(room, date, today).Some? ==>
      (BookingOnDate(room, date, today).value.status == OCCUPIED <==> RoomStatusOnDate(room, date, today) == OCCUPIED)
  {
    StatusesDistinct();
  }

  /** The stay used by the two scenario lemmas below: daily, booked, June 1 to June 3. */
  function JuneStay(): Booking
  {
    Booking("bk", "Guest", "2024-06-01", "2024-06-03", "13:00", "12:00", DAILY, BOOKED)
  }

  /** A room with a single stored booking, on a date other than today. */
  lemma SingleStayStatus(room: Room, b: Booking, date: string, today: string)
    requires room.bookings == [b] && date != today
    ensures RoomStatusOnDate(room, date, today) ==
      if !Covers(b, date) then AVAILABLE else if b.status == OCCUPIED then OCCUPIED else BOOKED
  {
    if Covers(b, date) {
      StatusOnDateFirstMatch(room, date, today, 0);
    }
  }

  /** The nights of a stay from June 1 to June 3 show booked. */
  lemma StayNightsScenario(room: Room)
    requires room.bookings == [JuneStay()]
    ensures RoomStatusOnDate(room, "2024-06-01", "2024-07-01") == BOOKED
    ensures RoomStatusOnDate(room, "2024-06-02", "2024-07-01") == BOOKED
  {
    StatusesDistinct();
    assert "2024-06-01"[6] != "2024-07-01"[6] && "2024-06-02"[6] != "2024-07-01"[6];
    NightCovered("2024-06-01");
    SingleStayStatus(room, JuneStay(), "2024-06-01", "2024-07-01");
    NightCovered("2024-06-02");
    SingleStayStatus(room, JuneStay(), "2024-06-02", "2024-07-01");
  }

  /** A daily stay with a check-out date covers every date from its check-in up to, not including, its check-out. */
  lemma DailyWindow(b: Booking, date: string)
    requires b.checkIn != "" && b.checkOut != "" && b.stayType == DAILY
    requires Le(b.checkIn, date) && Le(date, b.checkOut) && date != b.checkOut
    ensures Covers(b, date)
  {
    assert HOURLY[0] != DAILY[0];
  }

  lemma NightCovered(date: string)
    requires date == "2024-06-01" || date == "2024-06-02"
    ensures Covers(JuneStay(), date)
  {
    if date == "2024-06-01" {
      FirstNightCovered();
    } else {
      SecondNightCovered();
    }
  }

  lemma FirstNightCovered()
    ensures Covers(JuneStay(), "2024-06-01")
  {
    assert Le("2024-06-01", "2024-06-01") && Lt("2024-06-01", "2024-06-03");
    DailyWindow(JuneStay(), "2024-06-01");
  }

  lemma SecondNightCovered()
    ensures Covers(JuneStay(), "2024-06-02")
  {
    assert Le("2024-06-01", "2024-06-02") && Lt("2024-06-02", "2024-06-03");
    DailyWindow(JuneStay(), "2024-06-02");
  }

  /** The same stay leaves the room available on its turnover day June 3 and on May 31. */
  lemma TurnoverDayScenario(room: Room)
    requires room.bookings == [JuneStay()]
    ensures RoomStatusOnDate(room, "2024-06-03", "2024-07-01") == AVAILABLE
    ensures RoomStatusOnDate(room, "2024-05-31", "2024-07-01") == AVAILABLE
  {
    assert "2024-06-03"[6] != "2024-07-01"[6] && "2024-05-31"[6] != "2024-07-01"[6];
    DayNotCovered("2024-06-03");
    SingleStayStatus(room, JuneStay(), "2024-06-03", "2024-07-01");
    DayNotCovered("2024-05-31");
    SingleStayStatus(room, JuneStay(), "2024-05-31", "2024-07-01");
  }

  lemma DayNotCovered(date: string)
    requires date == "2024-06-03" || date == "2024-05-31"
    ensures !Covers(JuneStay(), date)
  {
    assert HOURLY[0] != DAILY[0];
    assert !Le("2024-06-01", "2024-05-31");
  }

  /** An hourly booking on June 1, from 13:00 to 15:00. */
  function HourlySlot(): Booking
  {
    Booking("bk-h", "Guest", "2024-06-01", "2024-06-01", "13:00", "15:00", HOURLY, BOOKED)
  }

  /** An hourly booking shows booked on its own day and leaves every other date available. */
  lemma HourlySlotScenario(room: Room, date: string)
    requires room.bookings == [HourlySlot()] && date != "2024-07-01"
    ensures RoomStatusOnDate(room, date, "2024-07-01") == if date == "2024-06-01" then BOOKED else AVAILABLE
  {
    StatusesDistinct();
    SingleStayStatus(room, HourlySlot(), date, "2024-07-01");
  }

  /** A stay from May 20 to May 22, stored after the June stay. */
  function MayStay(): Booking
  {
    Booking("bk-2", "Guest", "2024-05-20", "2024-05-22", "13:00", "12:00", DAILY, BOOKED)
  }

  /** Of two booked stays the one checking in first is the active booking, whatever the stored order. */
  lemma EarlierStayIsActive(room: Room)
    requires room.bookings == [JuneStay(), MayStay()]
    ensures ActiveBooking(room) == Some(MayStay())
  {
    MayBeforeJune();
    LaterStoredEarlierStay(room, JuneStay(), MayStay());
  }

  /** With two active bookings, the second wins when it checks in strictly earlier. */
  lemma LaterStoredEarlierStay(room: Room, first: Booking, second: Booking)
    requires room.bookings == [first, second] && IsActive(first) && IsActive(second)
    requires Le(second.checkIn, first.checkIn) && !Le(first.checkIn, second.checkIn)
    ensures ActiveBooking(room) == Some(second)
  {
    var s := room.bookings;
    LeReflexive(second.checkIn);
    forall j | 0 <= j < |s| && IsActive(s[j]) ensures Le(s[1].checkIn, s[j].checkIn) {
      assert j == 0 || j == 1;
    }
    ActiveBookingTieBreak(room, 1);
  }

  lemma MayBeforeJune()
    ensures Le(MayStay().checkIn, JuneStay().checkIn) && !Le(JuneStay().checkIn, MayStay().checkIn)
  {
    assert Le("2024-05-20", "2024-06-01") && !Le("2024-06-01", "2024-05-20");
  }
}
