/**
 * The dashboard's top-level state: the room list, the room whose modal is
 * open, and whether the modal is showing; the merge of a partial room
 * update into the list; and the zone and floor panels the list is shown in.
 */
module AppState {
  import opened Wrappers
  import opened RoomData

  /**
   * A partial room update `{status?, booking?}`: a key absent from the
   * object is `None`; `booking: null` is `Some(None)`.
   */
  datatype Patch = Patch(status: Option<string>, booking: Option<Option<BookingForm>>)

  /** `{ ...room, ...updates }`. */
  function Merge(room: Room, updates: Patch): Room
  {
    room.(status := if updates.status.Some? then updates.status.value else room.status,
          booking := if updates.booking.Some? then updates.booking.value else room.booking)
  }

  /** Keys present in the patch take its values; every other field keeps its old value. */
  lemma MergeFields(room: Room, updates: Patch)
    ensures var r := Merge(room, updates);
      && (updates.status.Some? ==> r.status == updates.status.value)
      && (updates.status.None? ==> r.status == room.status)
      && (updates.booking.Some? ==> r.booking == updates.booking.value)
      && (updates.booking.None? ==> r.booking == room.booking)
      && r.id == room.id && r.number == room.number && r.zone == room.zone && r.roomType == room.roomType
      && r.floor == room.floor && r.building == room.building && r.bookings == room.bookings
  {
  }

  /** `rooms.map(r => r.id === roomId ? { ...r, ...updates } : r)`. */
  function ApplyUpdate(rooms: seq<Room>, roomId: string, updates: Patch): seq<Room>
  {
    seq(|rooms|, i requires 0 <= i < |rooms| => if rooms[i].id == roomId then Merge(rooms[i], updates) else rooms[i])
  }

  /**
   * The update keeps the length, the order and the ids of the list, leaves
   * every room with another id as it was, and merges the patch into the
   * room with the given id.
   */
  lemma ApplyUpdateShape(rooms: seq<Room>, roomId: string, updates: Patch)
    ensures var r := ApplyUpdate(rooms, roomId, updates);
      && |r| == |rooms|
      && (forall i :: 0 <= i < |rooms| ==> r[i].id == rooms[i].id)
      && (forall i :: 0 <= i < |rooms| && rooms[i].id != roomId ==> r[i] == rooms[i])
      && (forall i :: 0 <= i < |rooms| && rooms[i].id == roomId ==> r[i] == Merge(rooms[i], updates))
  {
  }

  /** Updating a room id the list does not hold changes nothing. */
  lemma ApplyUpdateMissingId(rooms: seq<Room>, roomId: string, updates: Patch)
    requires forall r :: r in rooms ==> r.id != roomId
    ensures ApplyUpdate(rooms, roomId, updates) == rooms
  {
    var r := ApplyUpdate(rooms, roomId, updates);
    assert forall i :: 0 <= i < |rooms| ==> r[i] == rooms[i];
  }

  /** Applying the same update twice is the same as applying it once. */
  lemma ApplyUpdateIdempotent(rooms: seq<Room>, roomId: string, updates: Patch)
    ensures ApplyUpdate(ApplyUpdate(rooms, roomId, updates), roomId, updates) == ApplyUpdate(rooms, roomId, updates)
  {
  }

  /** Updates of two different rooms commute. */
  lemma ApplyUpdateCommutes(rooms: seq<Room>, id1: string, p1: Patch, id2: string, p2: Patch)
    requires id1 != id2
    ensures ApplyUpdate(ApplyUpdate(rooms, id1, p1), id2, p2) == ApplyUpdate(ApplyUpdate(rooms, id2, p2), id1, p1)
  {
  }

  // ------------------------------------------------------------ panels

  /** The five room groups the dashboard renders: the resort, and each floor of the two buildings. */
  datatype Panel = ResortPanel | FloorPanel(zone: string, floor: int)

  const PANELS: seq<Panel> := [ResortPanel, FloorPanel(BUILDING_A, 1), FloorPanel(BUILDING_A, 2),
                               FloorPanel(BUILDING_B, 1), FloorPanel(BUILDING_B, 2)]

  /** The filter condition of a panel. */
  predicate InPanel(r: Room, p: Panel)
  {
    match p
    case ResortPanel => r.zone == RESORT
    case FloorPanel(zone, floor) => r.zone == zone && r.floor == Some(floor)
  }

  /** `rooms.filter(r => InPanel(r, p))`. */
  function PanelRooms(rooms: seq<Room>, p: Panel): (r: seq<Room>)
    ensures forall x :: x in r <==> x in rooms && InPanel(x, p)
    ensures |r| <= |rooms|
  {
    if |rooms| == 0 then []
    else (if InPanel(rooms[0], p) then [rooms[0]] else []) + PanelRooms(rooms[1..], p)
  }

  lemma {:induction false} PanelRoomsAppend(a: seq<Room>, b: seq<Room>, p: Panel)
    ensures PanelRooms(a + b, p) == PanelRooms(a, p) + PanelRooms(b, p)
  {
    if |a| > 0 {
      assert (a + b)[1..] == a[1..] + b;
      PanelRoomsAppend(a[1..], b, p);
    } else {
      assert a + b == b;
    }
  }

  lemma {:induction false} PanelRoomsAll(s: seq<Room>, p: Panel)
    requires forall r :: r in s ==> InPanel(r, p)
    ensures PanelRooms(s, p) == s
  {
    if |s| > 0 {
      PanelRoomsAll(s[1..], p);
    }
  }

  lemma {:induction false} PanelRoomsNone(s: seq<Room>, p: Panel)
    requires forall r :: r in s ==> !InPanel(r, p)
    ensures PanelRooms(s, p) == []
  {
    if |s| > 0 {
      PanelRoomsNone(s[1..], p);
    }
  }

  /** No room is in two panels. */
  lemma PanelsDisjoint(r: Room, i: int, j: int)
    requires 0 <= i < j < |PANELS|
    ensures !(InPanel(r, PANELS[i]) && InPanel(r, PANELS[j]))
  {
    ZonesDistinct();
  }

  /** The registry in its five blocks: resort, A floor 1, A floor 2, B floor 1, B floor 2. */
  function Blocks(): seq<seq<Room>>
  {
    [ResortRooms(), BuildingRooms("A")[..12], BuildingRooms("A")[12..],
     BuildingRooms("B")[..12], BuildingRooms("B")[12..]]
  }

  lemma BlocksConcat()
    ensures AllRooms() == Blocks()[0] + Blocks()[1] + Blocks()[2] + Blocks()[3] + Blocks()[4]
    ensures |Blocks()[0]| == 40 && forall k :: 1 <= k < 5 ==> |Blocks()[k]| == 12
  {
    var a, b := BuildingRooms("A"), BuildingRooms("B");
    assert a == a[..12] + a[12..] && b == b[..12] + b[12..];
  }

  lemma ResortBlock()
    ensures forall r :: r in ResortRooms() ==> r.zone == RESORT
  {
    forall r | r in ResortRooms() ensures r.zone == RESORT {
      var i :| 0 <= i < 40 && ResortRooms()[i] == r;
      assert r == ResortRoom(i + 1);
    }
  }

  lemma FloorOneBlock(building: string)
    ensures forall r :: r in BuildingRooms(building)[..12] ==> r.zone == BuildingZone(building) && r.floor == Some(1)
  {
    var block := BuildingRooms(building)[..12];
    forall r | r in block ensures r.zone == BuildingZone(building) && r.floor == Some(1) {
      var i :| 0 <= i < 12 && block[i] == r;
      assert r == BuildingRoom(building, 1, i + 1);
    }
  }

  lemma FloorTwoBlock(building: string)
    ensures forall r :: r in BuildingRooms(building)[12..] ==> r.zone == BuildingZone(building) && r.floor == Some(2)
  {
    var all := BuildingRooms(building);
    var block := all[12..];
    forall r | r in block ensures r.zone == BuildingZone(building) && r.floor == Some(2) {
      var i :| 0 <= i < 12 && block[i] == r;
      assert block[i] == all[12 + i];
      assert (12 + i) / 12 == 1;
      assert r == BuildingRoom(building, 2, (12 + i) % 12 + 1);
    }
  }

  lemma BlockInPanel(k: int)
    requires 0 <= k < 5
    ensures forall r :: r in Blocks()[k] ==> InPanel(r, PANELS[k])
  {
    if k == 0 {
      ResortBlock();
    } else if k == 1 {
      FloorOneBlock("A");
    } else if k == 2 {
      FloorTwoBlock("A");
    } else if k == 3 {
      FloorOneBlock("B");
      assert BuildingZone("B") == BUILDING_B by { assert "B" != "A"; }
    } else {
      FloorTwoBlock("B");
      assert BuildingZone("B") == BUILDING_B by { assert "B" != "A"; }
    }
  }

  /**
   * On the generated rooms the five panels hold 40, 12, 12, 12 and 12
   * rooms and every room is in one of them (and, by PanelsDisjoint, in one only).
   */
  lemma PanelsPartitionRegistry()
    ensures |PanelRooms(AllRooms(), PANELS[0])| == 40
    ensures forall k :: 1 <= k < 5 ==> |PanelRooms(AllRooms(), PANELS[k])| == 12
    ensures forall r :: r in AllRooms() ==> exists k :: 0 <= k < |PANELS| && InPanel(r, PANELS[k])
  {
    BlocksConcat();
    forall m | 0 <= m < 5 ensures forall r :: r in Blocks()[m] ==> InPanel(r, PANELS[m]) {
      BlockInPanel(m);
    }
    forall k | 0 <= k < 5 ensures |PanelRooms(AllRooms(), PANELS[k])| == |Blocks()[k]| {
      PanelSize(Blocks(), k);
    }
    forall r | r in AllRooms() ensures exists k :: 0 <= k < |PANELS| && InPanel(r, PANELS[k]) {
      var blocks := Blocks();
      assert r in blocks[0] || r in blocks[1] || r in blocks[2] || r in blocks[3] || r in blocks[4];
      var k :| 0 <= k < 5 && r in blocks[k];
      assert InPanel(r, PANELS[k]);
    }
  }

  lemma PanelRoomsOfBlocks(blocks: seq<seq<Room>>, p: Panel)
    requires |blocks| == 5
    ensures PanelRooms(blocks[0] + blocks[1] + blocks[2] + blocks[3] + blocks[4], p)
      == PanelRooms(blocks[0], p) + PanelRooms(blocks[1], p) + PanelRooms(blocks[2], p)
         + PanelRooms(blocks[3], p) + PanelRooms(blocks[4], p)
  {
    PanelRoomsAppend(blocks[0] + blocks[1] + blocks[2] + blocks[3], blocks[4], p);
    PanelRoomsAppend(blocks[0] + blocks[1] + blocks[2], blocks[3], p);
    PanelRoomsAppend(blocks[0] + blocks[1], blocks[2], p);
    PanelRoomsAppend(blocks[0], blocks[1], p);
  }

  lemma BlockFilter(blocks: seq<seq<Room>>, k: int, m: int)
    requires |blocks| == 5 && 0 <= k < 5 && 0 <= m < 5
    requires forall r :: r in blocks[m] ==> InPanel(r, PANELS[m])
    ensures PanelRooms(blocks[m], PANELS[k]) == if m == k then blocks[m] else []
  {
    if m == k {
      PanelRoomsAll(blocks[m], PANELS[k]);
    } else {
      forall r | r in blocks[m] ensures !InPanel(r, PANELS[k]) {
        if m < k { PanelsDisjoint(r, m, k); } else { PanelsDisjoint(r, k, m); }
      }
      PanelRoomsNone(blocks[m], PANELS[k]);
    }
  }

  lemma PanelSize(blocks: seq<seq<Room>>, k: int)
    requires |blocks| == 5 && 0 <= k < 5
    requires AllRooms() == blocks[0] + blocks[1] + blocks[2] + blocks[3] + blocks[4]
    requires forall m :: 0 <= m < 5 ==> forall r :: r in blocks[m] ==> InPanel(r, PANELS[m])
    ensures |PanelRooms(AllRooms(), PANELS[k])| == |blocks[k]|
  {
    PanelRoomsOfBlocks(blocks, PANELS[k]);
    BlockFilter(blocks, k, 0);
    BlockFilter(blocks, k, 1);
    BlockFilter(blocks, k, 2);
    BlockFilter(blocks, k, 3);
    BlockFilter(blocks, k, 4);
  }

  // ------------------------------------------------------------- state

  /** The state held by the dashboard's top-level component. */
  class Dashboard {
    var rooms: seq<Room>
    var selectedRoom: Option<Room>
    var modalOpen: bool

    /** The modal is open exactly when a room is selected. */
    ghost predicate Valid()
      reads this
    {
      modalOpen <==> selectedRoom.Some?
    }

    constructor ()
      ensures Valid() && rooms == AllRooms() && selectedRoom == None && !modalOpen
    {
      var all := GenerateAllRooms();
      rooms := all;
      selectedRoom := None;
      modalOpen := false;
    }

    /** `handleRoomClick(room)`. */
    method RoomClick(room: Room)
      modifies this
      ensures Valid() && selectedRoom == Some(room) && modalOpen && rooms == old(rooms)
    {
      selectedRoom := Some(room);
      modalOpen := true;
    }

    /** `handleModalClose()`. */
    method ModalClose()
      modifies this
      ensures Valid() && selectedRoom == None && !modalOpen && rooms == old(rooms)
    {
      modalOpen := false;
      selectedRoom := None;
    }

    /** `handleUpdateRoom(roomId, updates)`. */
    method UpdateRoom(roomId: string, updates: Patch)
      requires Valid()
      modifies this
      ensures Valid()
      ensures rooms == ApplyUpdate(old(rooms), roomId, updates)
      ensures selectedRoom == old(selectedRoom) && modalOpen == old(modalOpen)
    {
      rooms := ApplyUpdate(rooms, roomId, updates);
    }
  }
}
