/**
 * The timeline's per-room row: for every date of the window, the cell
 * shows the first daily booking whose stay covers the date and, beside it,
 * the hourly bookings of that exact date sorted by their check-in time.
 */
module Timeline {
  import opened Wrappers
  import opened Strings
  import opened JsArray
  import opened RoomData

  /**
   * The daily-booking test of a cell: a booking without check-in date and
   * an hourly booking never qualify; a stay with a check-out date covers
   * the nights from check-in up to, not including, check-out; one without
   * covers its check-in date.
   */
  predicate CoversDaily(b: Booking, date: string)
  {
    if b.checkIn == "" || b.stayType == HOURLY then false
    else
      var checkOut := if b.checkOut != "" then b.checkOut else b.checkIn;
      Le(b.checkIn, date) && (if b.checkOut != "" then Lt(date, checkOut) else Le(date, checkOut))
  }

  /** `find` with the daily-booking test: the first qualifying booking in stored order. */
  function FirstDaily(s: seq<Booking>, date: string): (r: Option<Booking>)
    ensures r.None? <==> forall b :: b in s ==> !CoversDaily(b, date)
    ensures r.Some? ==> r.value in s && CoversDaily(r.value, date)
  {
    if |s| == 0 then None
    else if CoversDaily(s[0], date) then Some(s[0])
    else FirstDaily(s[1..], date)
  }

  /** The daily booking found is the qualifying booking with the smallest index. */
  lemma {:induction false} FirstDailyIsFirst(s: seq<Booking>, date: string, k: int)
    requires 0 <= k < |s| && CoversDaily(s[k], date)
    requires forall j :: 0 <= j < k ==> !CoversDaily(s[j], date)
    ensures FirstDaily(s, date) == Some(s[k])
  {
    if k > 0 {
      assert !CoversDaily(s[0], date);
      FirstDailyIsFirst(s[1..], date, k - 1);
    }
  }

  /** The hourly-booking test of a cell. */
  predicate HourlyOnDate(b: Booking, date: string)
  {
    b.stayType == HOURLY && b.checkIn == date
  }

  /** `filter` with the hourly-booking test, keeping stored order. */
  function HourlyOn(s: seq<Booking>, date: string): (r: seq<Booking>)
    ensures forall b :: b in r <==> b in s && HourlyOnDate(b, date)
  {
    if |s| == 0 then []
    else (if HourlyOnDate(s[0], date) then [s[0]] else []) + HourlyOn(s[1..], date)
  }

  /** The filter keeps every hourly booking of the date as often as it is stored, and nothing else. */
  lemma {:induction false} HourlyOnCount(s: seq<Booking>, date: string, b: Booking)
    ensures multiset(HourlyOn(s, date))[b] == if HourlyOnDate(b, date) then multiset(s)[b] else 0
  {
    if |s| > 0 {
      HourlyOnCount(s[1..], date, b);
      assert s == [s[0]] + s[1..];
    }
  }

  /** The sort key of the hourly list; a missing time is the empty string. */
  function CheckInTimeKey(b: Booking): string
  {
    b.checkInTime
  }

  /** The daily block of a cell; the guest's name is shown on the start date only. */
  datatype DailyBlock = DailyBlock(booking: Booking, isStart: bool)

  /** A rendered cell: the empty cell, or the daily block and the hourly blocks. */
  datatype Cell = EmptyCell | BookingCell(daily: Option<DailyBlock>, hourly: seq<Booking>)

  /** The cell of `room` on `date`. */
  function RoomCell(room: Room, date: string): Cell
  {
    var dailyBooking := FirstDaily(room.bookings, date);
    var hourlyBookings := SortBy(HourlyOn(room.bookings, date), CheckInTimeKey);
    if dailyBooking.None? && |hourlyBookings| == 0 then EmptyCell
    else
      BookingCell(
        if dailyBooking.Some? then Some(DailyBlock(dailyBooking.value, dailyBooking.value.checkIn == date)) else None,
        hourlyBookings)
  }

  /** The label inside a daily block. */
  function Label(block: DailyBlock): Option<string>
  {
    if block.isStart then Some(block.booking.guestName) else None
  }

  /** The daily part of a cell, `None` for the empty cell. */
  function DailyOf(c: Cell): Option<DailyBlock>
  {
    if c.EmptyCell? then None else c.daily
  }

  /** The hourly part of a cell, empty for the empty cell. */
  function HourlyOf(c: Cell): seq<Booking>
  {
    if c.EmptyCell? then [] else c.hourly
  }

  /**
   * The row of `room`: one cell per date, in the order of the dates. A
   * cell is empty exactly when no booking is daily on its date and none is
   * hourly on it; its daily block is the first daily booking in stored
   * order; its hourly list is that date's hourly bookings, as often as
   * stored, ascending by check-in time.
   */
  function RoomRow(room: Room, dates: seq<string>): (r: seq<Cell>)
    ensures |r| == |dates|
    ensures forall i :: 0 <= i < |dates| ==>
      (r[i] == EmptyCell <==> forall b :: b in room.bookings ==> !CoversDaily(b, dates[i]) && !HourlyOnDate(b, dates[i]))
    ensures forall i :: 0 <= i < |dates| ==>
      (DailyOf(r[i]).None? <==> FirstDaily(room.bookings, dates[i]).None?)
      && (DailyOf(r[i]).Some? ==> DailyOf(r[i]).value.booking == FirstDaily(room.bookings, dates[i]).value)
    ensures forall i :: 0 <= i < |dates| ==>
      multiset(HourlyOf(r[i])) == multiset(HourlyOn(room.bookings, dates[i]))
      && SortedBy(HourlyOf(r[i]), CheckInTimeKey)
  {
    var r := seq(|dates|, i requires 0 <= i < |dates| => RoomCell(room, dates[i]));
    forall i | 0 <= i < |dates|
      ensures r[i] == EmptyCell <==> forall b :: b in room.bookings ==> !CoversDaily(b, dates[i]) && !HourlyOnDate(b, dates[i])
      ensures DailyOf(r[i]).None? <==> FirstDaily(room.bookings, dates[i]).None?
      ensures DailyOf(r[i]).Some? ==> DailyOf(r[i]).value.booking == FirstDaily(room.bookings, dates[i]).value
      ensures multiset(HourlyOf(r[i])) == multiset(HourlyOn(room.bookings, dates[i]))
      ensures SortedBy(HourlyOf(r[i]), CheckInTimeKey)
    {
      EmptyCellIff(room, dates[i]);
      HourlyCellIsSorted(room, dates[i]);
    }
    r
  }

  /** The hourly list of a cell is the date's hourly bookings, sorted. */
  lemma HourlyCellIsSorted(room: Room, date: string)
    ensures multiset(HourlyOf(RoomCell(room, date))) == multiset(HourlyOn(room.bookings, date))
    ensures SortedBy(HourlyOf(RoomCell(room, date)), CheckInTimeKey)
  {
    SortBySorted(HourlyOn(room.bookings, date), CheckInTimeKey);
  }

  /**
   * A cell is empty exactly when no daily booking covers the date and no
   * hourly booking is on it; otherwise its daily block is the first
   * qualifying booking in stored order.
   */
  lemma EmptyCellIff(room: Room, date: string)
    ensures RoomCell(room, date) == EmptyCell <==>
      (forall b :: b in room.bookings ==> !CoversDaily(b, date) && !HourlyOnDate(b, date))
    ensures DailyOf(RoomCell(room, date)).None? <==> FirstDaily(room.bookings, date).None?
    ensures DailyOf(RoomCell(room, date)).Some? ==> DailyOf(RoomCell(room, date)).value.booking == FirstDaily(room.bookings, date).value
  {
    var h := HourlyOn(room.bookings, date);
    var sorted := SortBy(h, CheckInTimeKey);
    if |sorted| == 0 {
      assert |h| == 0;
    } else {
      assert sorted[0] in multiset(h);
      assert sorted[0] in room.bookings && HourlyOnDate(sorted[0], date);
    }
  }

  /**
   * The daily block holds a stored booking that is not hourly, has a
   * check-in date, and whose window holds the date.
   */
  lemma DailyBlockRule(room: Room, date: string)
    requires DailyOf(RoomCell(room, date)).Some?
    ensures var b := DailyOf(RoomCell(room, date)).value.booking;
      && b in room.bookings && b.stayType != HOURLY && b.checkIn != ""
      && (b.checkOut != "" ==> Le(b.checkIn, date) && Lt(date, b.checkOut))
      && (b.checkOut == "" ==> date == b.checkIn)
  {
    var b := DailyOf(RoomCell(room, date)).value.booking;
    if b.checkOut == "" {
      LeAntisymmetric(b.checkIn, date);
    }
  }

  /**
   * The guest's name is shown exactly on the daily booking's start date,
   * the day it checks in.
   */
  lemma LabelOnStartDateOnly(room: Room, date: string)
    requires DailyOf(RoomCell(room, date)).Some?
    ensures var block := DailyOf(RoomCell(room, date)).value;
      && (Label(block).Some? <==> block.booking.checkIn == date)
      && (Label(block).Some? ==> Label(block).value == block.booking.guestName)
  {
  }

  /**
   * The hourly list holds exactly the hourly bookings of the date, each as
   * often as it is stored; it is ascending by check-in time, and bookings
   * with the same time keep their stored order.
   */
  lemma HourlyList(room: Room, date: string, b: Booking, time: string)
    ensures multiset(HourlyOf(RoomCell(room, date)))[b] == if HourlyOnDate(b, date) then multiset(room.bookings)[b] else 0
    ensures SortedBy(HourlyOf(RoomCell(room, date)), CheckInTimeKey)
    ensures WithKey(HourlyOf(RoomCell(room, date)), CheckInTimeKey, time) == WithKey(HourlyOn(room.bookings, date), CheckInTimeKey, time)
  {
    var h := HourlyOn(room.bookings, date);
    HourlyOnCount(room.bookings, date, b);
    SortBySorted(h, CheckInTimeKey);
    SortByStable(h, CheckInTimeKey, time);
  }

  /**
   * The daily test here is the daily branch of the room's date lookup:
   * hourly bookings never qualify and other bookings qualify exactly when
   * they cover the date.
   */
  lemma DailyCoverageAgrees(b: Booking, date: string)
    ensures b.stayType == HOURLY ==> !CoversDaily(b, date)
    ensures b.stayType != HOURLY ==> (CoversDaily(b, date) <==> Covers(b, date))
  {
  }

  /** On a room without hourly bookings the daily `find` and the room's covering lookup agree. */
  lemma {:induction false} FirstDailyIsFirstCovering(s: seq<Booking>, date: string)
    requires forall b :: b in s ==> b.stayType != HOURLY
    ensures FirstDaily(s, date) == FirstCovering(s, date)
  {
    if |s| > 0 {
      DailyCoverageAgrees(s[0], date);
      FirstDailyIsFirstCovering(s[1..], date);
    }
  }

  /**
   * For a room without hourly bookings and a date other than today, the
   * timeline's daily block shows the booking the room's date lookup returns.
   */
  lemma TimelineMatchesDateLookup(room: Room, date: string, today: string)
    requires date != today
    requires forall b :: b in room.bookings ==> b.stayType != HOURLY
    ensures BookingOnDate(room, date, today).None? <==> DailyOf(RoomCell(room, date)).None?
    ensures BookingOnDate(room, date, today).Some? ==>
      BookingOnDate(room, date, today).value == DailyOf(RoomCell(room, date)).value.booking
  {
    FirstDailyIsFirstCovering(room.bookings, date);
    EmptyCellIff(room, date);
    StatusAndBookingAgree(room, date, today);
  }
}
