/**
 * The header's summary bar: one counter per room status, filled by a
 * single pass over the room list, beside the total number of rooms.
 */
module SummaryBar {
  import opened RoomData

  /** The keys of the `counts` object. */
  const STATUS_KEYS: set<string> := {AVAILABLE, BOOKED, OCCUPIED, CLEANING}

  /** The number of rooms whose status is `status`. */
  function CountWithStatus(rooms: seq<Room>, status: string): (n: nat)
    ensures n <= |rooms|
  {
    if |rooms| == 0 then 0
    else CountWithStatus(rooms[..|rooms| - 1], status) + (if rooms[|rooms| - 1].status == status then 1 else 0)
  }

  /** The `counts` object before the loop. */
  function InitialCounts(): (counts: map<string, int>)
    ensures counts.Keys == STATUS_KEYS
    ensures forall s :: s in counts ==> counts[s] == 0
  {
    map[AVAILABLE := 0, BOOKED := 0, OCCUPIED := 0, CLEANING := 0]
  }

  /**
   * The counting loop: a room whose status is one of the keys bumps that
   * counter, any other room is skipped; afterwards every counter holds the
   * number of rooms with its status.
   */
  method CountStatuses(rooms: seq<Room>) returns (counts: map<string, int>)
    ensures counts.Keys == STATUS_KEYS
    ensures forall s :: s in STATUS_KEYS ==> counts[s] == CountWithStatus(rooms, s)
  {
    counts := InitialCounts();
    for i := 0 to |rooms|
      invariant counts.Keys == STATUS_KEYS
      invariant forall s :: s in STATUS_KEYS ==> counts[s] == CountWithStatus(rooms[..i], s)
    {
      var r := rooms[i];
      if r.status in counts {
        counts := counts[r.status := counts[r.status] + 1];
      }
      assert rooms[..i + 1][..i] == rooms[..i];
    }
    assert rooms[..|rooms|] == rooms;
  }

  /** A room whose status is not a key leaves every counter as it was. */
  lemma UnknownStatusIgnored(rooms: seq<Room>, r: Room, s: string)
    requires r.status !in STATUS_KEYS && s in STATUS_KEYS
    ensures CountWithStatus(rooms + [r], s) == CountWithStatus(rooms, s)
  {
    assert (rooms + [r])[..|rooms|] == rooms;
  }

  /** The sum of the four counters. */
  function Total(rooms: seq<Room>): nat
  {
    CountWithStatus(rooms, AVAILABLE) + CountWithStatus(rooms, BOOKED)
      + CountWithStatus(rooms, OCCUPIED) + CountWithStatus(rooms, CLEANING)
  }

  /**
   * The four counters never add up to more than the displayed total, and
   * they add up to it exactly when every room's status is one of the keys.
   */
  lemma {:induction false} TotalBound(rooms: seq<Room>)
    ensures Total(rooms) <= |rooms|
    ensures Total(rooms) == |rooms| <==> forall i :: 0 <= i < |rooms| ==> rooms[i].status in STATUS_KEYS
  {
    if |rooms| > 0 {
      var init := rooms[..|rooms| - 1];
      TotalBound(init);
      StatusesDistinct();
      forall i | 0 <= i < |init|
        ensures init[i] == rooms[i]
      {
      }
    }
  }

  /** When every room has status `status`, its counter is the number of rooms. */
  lemma {:induction false} UniformCount(rooms: seq<Room>, status: string)
    requires forall i :: 0 <= i < |rooms| ==> rooms[i].status == status
    ensures CountWithStatus(rooms, status) == |rooms|
  {
    if |rooms| > 0 {
      UniformCount(rooms[..|rooms| - 1], status);
    }
  }

  /** The 88 fresh rooms are all counted as available, and every one is counted. */
  lemma FreshRegistryCounts()
    ensures CountWithStatus(AllRooms(), AVAILABLE) == 88
    ensures Total(AllRooms()) == 88
  {
    var rooms := AllRooms();
    AllRoomsLayout();
    AllRoomsInitialState();
    UniformCount(rooms, AVAILABLE);
    TotalBound(rooms);
  }
}
