/**
 * The room document, its schema (enum type, price and size minimums, the
 * `isAvailable` default, the unique room number) and the room's own
 * availability query, which treats touching dates as a conflict.
 */
module HotelRoomModel {
  import opened Common
  import opened BookingModel

  /** A stored room; `id` is the store-assigned `_id`. */
  datatype Room = Room(
    id: nat,
    roomNumber: string,
    roomType: RoomType,
    price: int,
    description: string,
    bedsCount: int,
    maxOccupancy: int,
    amenities: seq<string>,
    images: seq<string>,
    isAvailable: bool,
    size: int)
  {
    /** What the schema guarantees of every stored room (the type enum holds by typing). */
    predicate Valid() {
      && roomNumber != ""
      && price >= 0
      && description != ""
      && bedsCount >= 1
      && maxOccupancy >= 1
      && size >= 1
      && AllNonEmpty(amenities)
      && AllNonEmpty(images)
    }
  }

  /** The document handed to the room model: the type is still a string, `isAvailable` may be left out. */
  datatype RoomFields = RoomFields(
    roomNumber: string,
    roomType: string,
    price: int,
    description: string,
    bedsCount: int,
    maxOccupancy: int,
    amenities: seq<string>,
    images: seq<string>,
    isAvailable: Option<bool>,
    size: int)

  predicate AllNonEmpty(xs: seq<string>) {
    forall i :: 0 <= i < |xs| ==> xs[i] != ""
  }

  /**
   * Schema validation and defaults for a new room: stored iff every field
   * constraint holds; a missing availability flag becomes `true`.
   */
  function CreateRoom(f: RoomFields, id: nat): (r: Result<Room, SchemaError>)
    ensures r.Ok? <==>
      && f.roomNumber != "" && ParseRoomType(f.roomType).Some? && f.price >= 0
      && f.description != "" && f.bedsCount >= 1 && f.maxOccupancy >= 1
      && AllNonEmpty(f.amenities) && AllNonEmpty(f.images) && f.size >= 1
    ensures r.Ok? ==> r.value.Valid() && r.value.id == id
    ensures r.Ok? ==>
      && r.value.roomNumber == f.roomNumber && RoomTypeName(r.value.roomType) == f.roomType
      && r.value.price == f.price && r.value.maxOccupancy == f.maxOccupancy
      && r.value.bedsCount == f.bedsCount && r.value.size == f.size
    ensures r.Ok? ==> r.value.isAvailable == (f.isAvailable.None? || f.isAvailable.value)
  {
    if f.roomNumber == "" then Err(Required("roomNumber"))
    else if ParseRoomType(f.roomType).None? then Err(NotInEnum("roomType"))
    else if f.price < 0 then Err(BelowMinimum("price"))
    else if f.description == "" then Err(Required("description"))
    else if f.bedsCount < 1 then Err(BelowMinimum("bedsCount"))
    else if f.maxOccupancy < 1 then Err(BelowMinimum("maxOccupancy"))
    else if !AllNonEmpty(f.amenities) then Err(Required("amenities"))
    else if !AllNonEmpty(f.images) then Err(Required("images"))
    else if f.size < 1 then Err(BelowMinimum("size"))
    else
      Ok(Room(id, f.roomNumber, ParseRoomType(f.roomType).value, f.price, f.description,
              f.bedsCount, f.maxOccupancy, f.amenities, f.images, f.isAvailable.GetOr(true), f.size))
  }

  /** The room collection: every room valid, `_id`s distinct, room numbers unique. */
  predicate InventoryValid(rooms: seq<Room>) {
    && (forall i :: 0 <= i < |rooms| ==> rooms[i].Valid())
    && (forall i, j :: 0 <= i < j < |rooms| ==> rooms[i].id != rooms[j].id)
    && (forall i, j :: 0 <= i < j < |rooms| ==> rooms[i].roomNumber != rooms[j].roomNumber)
  }

  /** Closed intervals `[s1, e1]` and `[s2, e2]` meet: touching end points count. */
  predicate InclusiveOverlap(s1: int, e1: int, s2: int, e2: int) {
    s1 <= e2 && e1 >= s2
  }

  /** The query of `checkAvailability`: this room, not cancelled, dates meeting inclusively. */
  predicate InclusiveBlocks(b: Booking, roomId: nat, checkIn: int, checkOut: int) {
    && b.roomId == roomId
    && b.status != Cancelled
    && InclusiveOverlap(b.checkIn, b.checkOut, checkIn, checkOut)
  }

  /** `findOne`: the first booking in store order that the inclusive query matches. */
  function FindOne(bookings: seq<Booking>, roomId: nat, checkIn: int, checkOut: int): (r: Option<Booking>)
    ensures r.Some? ==> r.value in bookings && InclusiveBlocks(r.value, roomId, checkIn, checkOut)
    ensures r.None? ==> forall k :: 0 <= k < |bookings| ==> !InclusiveBlocks(bookings[k], roomId, checkIn, checkOut)
  {
    if bookings == [] then None
    else if InclusiveBlocks(bookings[0], roomId, checkIn, checkOut) then Some(bookings[0])
    else
      var r := FindOne(bookings[1..], roomId, checkIn, checkOut);
      assert forall k :: 1 <= k < |bookings| ==> bookings[k] == bookings[1..][k - 1];
      r
  }

  /** `room.checkAvailability(checkIn, checkOut)`: true iff no active booking of this room meets the dates. */
  function CheckAvailability(room: Room, bookings: seq<Booking>, checkIn: int, checkOut: int): (free: bool)
    ensures free <==> forall k :: 0 <= k < |bookings| ==> !InclusiveBlocks(bookings[k], room.id, checkIn, checkOut)
  {
    FindOne(bookings, room.id, checkIn, checkOut).None?
  }

  /** Cancelled bookings and bookings of other rooms never make a room unavailable. */
  lemma IgnoredBookingsKeepAvailability(room: Room, bookings: seq<Booking>, b: Booking, checkIn: int, checkOut: int)
    requires b.status == Cancelled || b.roomId != room.id
    ensures CheckAvailability(room, bookings + [b], checkIn, checkOut) == CheckAvailability(room, bookings, checkIn, checkOut)
  {
    var extended := bookings + [b];
    assert forall k :: 0 <= k < |bookings| ==> extended[k] == bookings[k];
    assert extended[|bookings|] == b;
  }
}
