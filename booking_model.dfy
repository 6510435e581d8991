/**
 * The persisted booking document and its schema: the `status` and `roomType`
 * enums, the `guestCount` and `totalPrice` minimums, the required fields and
 * the `pending` default status.
 */
module BookingModel {
  import opened Common

  datatype Status = Pending | Confirmed | Cancelled

  function StatusName(s: Status): (n: string)
    ensures n != []
  {
    match s
    case Pending => "pending"
    case Confirmed => "confirmed"
    case Cancelled => "cancelled"
  }

  /** The schema's `enum: ['pending', 'confirmed', 'cancelled']` check. */
  function ParseStatus(s: string): (r: Option<Status>)
    ensures r.Some? <==> s == "pending" || s == "confirmed" || s == "cancelled"
    ensures r.Some? ==> StatusName(r.value) == s
  {
    if s == "pending" then Some(Pending)
    else if s == "confirmed" then Some(Confirmed)
    else if s == "cancelled" then Some(Cancelled)
    else None
  }

  /** A stored booking. `id` is the store-assigned `_id`; `roomId` references a room's `_id`. */
  datatype Booking = Booking(
    id: nat,
    userId: string,
    roomId: nat,
    roomType: RoomType,
    roomNumber: string,
    checkIn: int,
    checkOut: int,
    guestCount: int,
    specialRequests: Option<string>,
    status: Status,
    totalPrice: int)
  {
    /** What the schema guarantees of every stored booking (the enums hold by typing). */
    predicate Valid() {
      && userId != ""
      && roomNumber != ""
      && guestCount >= 1
      && totalPrice >= 0
    }
  }

  /** The document handed to `Booking.create`: enums are still strings, `status` may be left out. */
  datatype BookingFields = BookingFields(
    userId: string,
    roomId: nat,
    roomType: string,
    roomNumber: string,
    checkIn: int,
    checkOut: int,
    guestCount: int,
    specialRequests: Option<string>,
    status: Option<string>,
    totalPrice: int)

  datatype SchemaError = Required(field: string) | NotInEnum(field: string) | BelowMinimum(field: string)

  /** The schema's acceptance condition on a document, field by field. */
  predicate Admissible(f: BookingFields) {
    && f.userId != ""
    && ParseRoomType(f.roomType).Some?
    && f.roomNumber != ""
    && f.guestCount >= 1
    && (f.status.None? || ParseStatus(f.status.value).Some?)
    && f.totalPrice >= 0
  }

  /**
   * Schema validation and defaults applied by `Booking.create`: the document is
   * stored iff it is admissible, every field is kept, and a missing status
   * becomes `pending`.
   */
  function CreateBooking(f: BookingFields, id: nat): (r: Result<Booking, SchemaError>)
    ensures r.Ok? <==> Admissible(f)
    ensures r.Ok? ==> r.value.Valid()
    ensures r.Ok? ==>
      && r.value.id == id && r.value.userId == f.userId && r.value.roomId == f.roomId
      && RoomTypeName(r.value.roomType) == f.roomType && r.value.roomNumber == f.roomNumber
      && r.value.checkIn == f.checkIn && r.value.checkOut == f.checkOut
      && r.value.guestCount == f.guestCount && r.value.specialRequests == f.specialRequests
      && r.value.totalPrice == f.totalPrice
    ensures r.Ok? && f.status.None? ==> r.value.status == Pending
    ensures r.Ok? && f.status.Some? ==> StatusName(r.value.status) == f.status.value
  {
    if f.userId == "" then Err(Required("userId"))
    else if ParseRoomType(f.roomType).None? then Err(NotInEnum("roomType"))
    else if f.roomNumber == "" then Err(Required("roomNumber"))
    else if f.guestCount < 1 then Err(BelowMinimum("guestCount"))
    else if f.status.Some? && ParseStatus(f.status.value).None? then Err(NotInEnum("status"))
    else if f.totalPrice < 0 then Err(BelowMinimum("totalPrice"))
    else
      var status := if f.status.Some? then ParseStatus(f.status.value).value else Pending;
      Ok(Booking(id, f.userId, f.roomId, ParseRoomType(f.roomType).value, f.roomNumber,
                 f.checkIn, f.checkOut, f.guestCount, f.specialRequests, status, f.totalPrice))
  }
}
