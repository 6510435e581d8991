/**
 * The booking admission check of `POST /api/bookings`: field and date
 * validation, the candidate rooms of the requested type, the first-fit search
 * for a room with no overlapping active booking, the guest-count check against
 * the selected room, the price, and the appended `confirmed` booking.
 */
module BookingsRoute {
  import opened Common
  import opened BookingModel
  import opened HotelRoomModel

  // ---------------------------------------------------------------------------
  // Request, outcome, response

  /**
   * The JSON body. A date is `Some(t)` when its body value is truthy and
   * parses to the timestamp `t`; a falsy date (absent, `null`, `""` or `0`)
   * is `None`. For `roomType` and `guestCount`, absent is `None`, while an
   * empty `roomType` is `Some("")` and a guest count of 0 is `Some(0)`, both
   * falsy. `specialRequests` is kept as
   * sent: absent is `None`, an empty string is `Some("")` and is stored and
   * echoed as such. The body's own `userId` is ignored by the route and not
   * modelled.
   */
  datatype Request = Request(
    roomType: Option<string>,
    checkInDate: Option<int>,
    checkOutDate: Option<int>,
    guestCount: Option<int>,
    specialRequests: Option<string>)

  /** The 400 answers, each carrying what its message interpolates. */
  datatype Reason =
    | MissingRequiredFields
    | CheckInInPast
    | CheckOutNotAfterCheckIn
    | NoAvailableRooms(requestedType: string)
    | GuestCountOutOfRange(maxOccupancy: int)

  /** What the caller sees of a stored booking: no booking id, user id or room id. */
  datatype BookingResponse = BookingResponse(
    checkInDate: int,
    checkOutDate: int,
    guestCount: int,
    roomNumber: string,
    roomType: RoomType,
    specialRequests: Option<string>,
    status: Status,
    totalPrice: int)

  /** 201 with the response, 400 with a reason, or 401. */
  datatype Outcome = Success(response: BookingResponse) | Rejected(reason: Reason) | Unauthorized

  /** The response projection of a created booking. */
  function Respond(b: Booking): (r: BookingResponse)
    ensures r.checkInDate == b.checkIn && r.checkOutDate == b.checkOut
    ensures r.guestCount == b.guestCount && r.totalPrice == b.totalPrice && r.status == b.status
    ensures r.roomNumber == b.roomNumber && r.roomType == b.roomType
    ensures r.specialRequests == b.specialRequests
  {
    BookingResponse(b.checkIn, b.checkOut, b.guestCount, b.roomNumber, b.roomType,
                    b.specialRequests, b.status, b.totalPrice)
  }

  /** The response does not depend on the internal identifiers. */
  lemma RespondHidesIdentifiers(b: Booking, id: nat, userId: string, roomId: nat)
    ensures Respond(b.(id := id, userId := userId, roomId := roomId)) == Respond(b)
  {
  }

  // ---------------------------------------------------------------------------
  // Validation and price

  /** `!roomType || !checkInDate || !checkOutDate || !guestCount`: a guest count of 0 is falsy. */
  function MissingFields(req: Request): (missing: bool)
    ensures !missing ==> && req.roomType.Some? && req.roomType.value != ""
                         && req.checkInDate.Some? && req.checkOutDate.Some?
                         && req.guestCount.Some? && req.guestCount.value != 0
    ensures req.roomType == Some("") || req.guestCount == Some(0) ==> missing
  {
    || !Truthy(req.roomType)
    || req.checkInDate.None?
    || req.checkOutDate.None?
    || req.guestCount.None?
    || req.guestCount.value == 0
  }

  /** `Math.ceil((checkOut - checkIn) / day)`, in exact integer arithmetic. */
  function Nights(checkIn: int, checkOut: int): (n: int)
    ensures (n - 1) * DayMs < checkOut - checkIn <= n * DayMs
  {
    -((checkIn - checkOut) / DayMs)
  }

  /** A stay that ends after it starts is charged at least one night. */
  lemma NightsAtLeastOne(checkIn: int, checkOut: int)
    requires checkIn < checkOut
    ensures Nights(checkIn, checkOut) >= 1
  {
  }

  /** A three-day stay is three nights; a day and a second more is charged as two. */
  lemma NightsExamples(checkIn: int)
    ensures Nights(checkIn, checkIn + 3 * DayMs) == 3
    ensures 100 * Nights(checkIn, checkIn + 3 * DayMs) == 300
    ensures Nights(checkIn, checkIn + DayMs + 1000) == 2
  {
  }

  /** A non-negative nightly price times at least one night is a non-negative total. */
  lemma TotalPriceNonNegative(price: int, nights: int)
    requires price >= 0 && nights >= 1
    ensures price * nights >= 0
  {
  }

  // ---------------------------------------------------------------------------
  // Overlap: the route's half-open test

  /** Half-open intervals `[s1, e1)` and `[s2, e2)` share an instant: touching ends do not count. */
  predicate HalfOpenOverlap(s1: int, e1: int, s2: int, e2: int) {
    s1 < e2 && e1 > s2
  }

  /** The route's query for one booking: this room, not cancelled, `checkIn < out && checkOut > in`. */
  predicate Blocks(b: Booking, roomId: nat, checkIn: int, checkOut: int) {
    && b.roomId == roomId
    && b.status != Cancelled
    && HalfOpenOverlap(b.checkIn, b.checkOut, checkIn, checkOut)
  }

  /** `Booking.find(...)`: every booking the query matches, in store order. */
  function ExistingBookings(bookings: seq<Booking>, roomId: nat, checkIn: int, checkOut: int): (found: seq<Booking>)
    ensures |found| <= |bookings|
    ensures forall b :: b in found ==> b in bookings && Blocks(b, roomId, checkIn, checkOut)
    ensures forall k :: 0 <= k < |bookings| && Blocks(bookings[k], roomId, checkIn, checkOut) ==> bookings[k] in found
  {
    if bookings == [] then []
    else
      var rest := ExistingBookings(bookings[1..], roomId, checkIn, checkOut);
      assert forall k :: 1 <= k < |bookings| ==> bookings[k] == bookings[1..][k - 1];
      if Blocks(bookings[0], roomId, checkIn, checkOut) then [bookings[0]] + rest else rest
  }

  /** `!existingBookings.length`: the room is free for the request. */
  predicate RoomIsFree(bookings: seq<Booking>, roomId: nat, checkIn: int, checkOut: int) {
    |ExistingBookings(bookings, roomId, checkIn, checkOut)| == 0
  }

  /** A room is free iff none of its non-cancelled bookings overlaps the request half-open. */
  lemma RoomIsFreeIff(bookings: seq<Booking>, roomId: nat, checkIn: int, checkOut: int)
    ensures RoomIsFree(bookings, roomId, checkIn, checkOut) <==>
            forall k :: 0 <= k < |bookings| ==> !Blocks(bookings[k], roomId, checkIn, checkOut)
  {
    var found := ExistingBookings(bookings, roomId, checkIn, checkOut);
    if |found| > 0 {
      assert found[0] in found;
      var k :| 0 <= k < |bookings| && bookings[k] == found[0];
      assert Blocks(bookings[k], roomId, checkIn, checkOut);
    }
  }

  /** The half-open test is contained in the inclusive one. */
  lemma BlocksImpliesInclusiveBlocks(b: Booking, roomId: nat, checkIn: int, checkOut: int)
    ensures Blocks(b, roomId, checkIn, checkOut) ==> InclusiveBlocks(b, roomId, checkIn, checkOut)
  {
  }

  /** ...but not conversely: a booking that ends when the request starts blocks only inclusively. */
  lemma TouchingBlocksOnlyInclusively(b: Booking, checkIn: int, checkOut: int)
    requires b.status != Cancelled && b.checkIn < b.checkOut
    requires b.checkOut == checkIn && checkIn < checkOut
    ensures !Blocks(b, b.roomId, checkIn, checkOut)
    ensures InclusiveBlocks(b, b.roomId, checkIn, checkOut)
  {
  }

  /** So `checkAvailability` is more conservative than the route: it never calls a conflicting room free. */
  lemma AvailableImpliesRouteFree(room: Room, bookings: seq<Booking>, checkIn: int, checkOut: int)
    ensures CheckAvailability(room, bookings, checkIn, checkOut) ==> RoomIsFree(bookings, room.id, checkIn, checkOut)
  {
    RoomIsFreeIff(bookings, room.id, checkIn, checkOut);
  }

  /** ...and strictly so: a touching booking leaves the room free for the route but not for `checkAvailability`. */
  lemma TouchingBookingSeparatesTheTests(room: Room, b: Booking, checkOut: int)
    requires b.roomId == room.id && b.status != Cancelled && b.checkIn < b.checkOut < checkOut
    ensures RoomIsFree([b], room.id, b.checkOut, checkOut)
    ensures !CheckAvailability(room, [b], b.checkOut, checkOut)
  {
    RoomIsFreeIff([b], room.id, b.checkOut, checkOut);
    assert InclusiveBlocks([b][0], room.id, b.checkOut, checkOut);
  }

  /**
   * A room booked for 2024-06-01..2024-06-05 (UTC) is free for
   * 2024-06-05..2024-06-08 and taken for 2024-06-04..2024-06-06.
   */
  lemma JuneBookingExample(b: Booking)
    requires b.status == Confirmed && b.checkIn == 1717200000000 && b.checkOut == 1717545600000
    ensures RoomIsFree([b], b.roomId, 1717545600000, 1717804800000)
    ensures !RoomIsFree([b], b.roomId, 1717459200000, 1717632000000)
  {
    RoomIsFreeIff([b], b.roomId, 1717545600000, 1717804800000);
    RoomIsFreeIff([b], b.roomId, 1717459200000, 1717632000000);
    assert Blocks([b][0], b.roomId, 1717459200000, 1717632000000);
  }

  // ---------------------------------------------------------------------------
  // Candidates and first fit

  /** `HotelRoom.find({ roomType: roomType.toLowerCase(), isAvailable: true })`, in store order. */
  function Candidates(rooms: seq<Room>, typeName: string): (c: seq<Room>)
    ensures |c| <= |rooms|
    ensures forall r :: r in c ==> r in rooms && r.isAvailable && RoomTypeName(r.roomType) == typeName
    ensures forall k :: 0 <= k < |rooms| && rooms[k].isAvailable && RoomTypeName(rooms[k].roomType) == typeName
              ==> rooms[k] in c
  {
    if rooms == [] then []
    else
      var rest := Candidates(rooms[1..], typeName);
      assert forall k :: 1 <= k < |rooms| ==> rooms[k] == rooms[1..][k - 1];
      if rooms[0].isAvailable && RoomTypeName(rooms[0].roomType) == typeName then [rooms[0]] + rest else rest
  }

  /** The candidate filter keeps store order: it distributes over concatenation. */
  lemma {:induction false} CandidatesKeepOrder(a: seq<Room>, b: seq<Room>, typeName: string)
    ensures Candidates(a + b, typeName) == Candidates(a, typeName) + Candidates(b, typeName)
  {
    if a == [] {
      assert a + b == b;
    } else {
      var head := if a[0].isAvailable && RoomTypeName(a[0].roomType) == typeName then [a[0]] else [];
      assert Candidates(a + b, typeName) == head + Candidates(a[1..] + b, typeName) by {
        assert (a + b)[0] == a[0];
        assert (a + b)[1..] == a[1..] + b;
      }
      CandidatesKeepOrder(a[1..], b, typeName);
      assert head + (Candidates(a[1..], typeName) + Candidates(b, typeName))
          == (head + Candidates(a[1..], typeName)) + Candidates(b, typeName);
    }
  }

  /** A type name that is not an enum value has no candidates. */
  lemma UnknownTypeHasNoCandidates(rooms: seq<Room>, typeName: string)
    requires ParseRoomType(typeName).None?
    ensures Candidates(rooms, typeName) == []
  {
    if Candidates(rooms, typeName) != [] {
      var r := Candidates(rooms, typeName)[0];
      assert r in Candidates(rooms, typeName);
      ParseRoomTypeName(r.roomType);
    }
  }

  /** The index of the first free candidate, or `|cands|` when every candidate conflicts. */
  function FirstFreeIndex(cands: seq<Room>, bookings: seq<Booking>, checkIn: int, checkOut: int): (k: nat)
    ensures k <= |cands|
    ensures k < |cands| ==> RoomIsFree(bookings, cands[k].id, checkIn, checkOut)
    ensures forall j :: 0 <= j < k ==> !RoomIsFree(bookings, cands[j].id, checkIn, checkOut)
  {
    if cands == [] then 0
    else if RoomIsFree(bookings, cands[0].id, checkIn, checkOut) then 0
    else
      var k := 1 + FirstFreeIndex(cands[1..], bookings, checkIn, checkOut);
      assert forall j :: 1 <= j < |cands| ==> cands[j] == cands[1..][j - 1];
      k
  }

  /** Candidate `k` is free and every candidate before it conflicts. */
  predicate FirstFitAt(cands: seq<Room>, bookings: seq<Booking>, k: int, checkIn: int, checkOut: int) {
    && 0 <= k < |cands|
    && RoomIsFree(bookings, cands[k].id, checkIn, checkOut)
    && forall j :: 0 <= j < k ==> !RoomIsFree(bookings, cands[j].id, checkIn, checkOut)
  }

  /** The room with id `roomId` is where first fit stops among `cands`. */
  predicate IsFirstFit(cands: seq<Room>, bookings: seq<Booking>, roomId: nat, checkIn: int, checkOut: int) {
    exists k :: 0 <= k < |cands| && FirstFitAt(cands, bookings, k, checkIn, checkOut) && cands[k].id == roomId
  }

  /** The room the first-fit search selects, if any. */
  function FirstFit(cands: seq<Room>, bookings: seq<Booking>, checkIn: int, checkOut: int): (sel: Option<Room>)
    ensures sel.None? <==> forall j :: 0 <= j < |cands| ==> !RoomIsFree(bookings, cands[j].id, checkIn, checkOut)
    ensures sel.Some? ==> exists k :: 0 <= k < |cands| && FirstFitAt(cands, bookings, k, checkIn, checkOut) && cands[k] == sel.value
  {
    var k := FirstFreeIndex(cands, bookings, checkIn, checkOut);
    if k < |cands| then Some(cands[k]) else None
  }

  // ---------------------------------------------------------------------------
  // The admission decision as a function of the store

  /** The route's verdict: an answer without a write, or the document to create. */
  datatype Verdict = Deny(outcome: Outcome) | Accept(fields: BookingFields)

  /** The route's decision, step by step in the route's order. */
  function Decide(rooms: seq<Room>, bookings: seq<Booking>, userId: Option<string>, req: Request, now: int): (v: Verdict)
    ensures v.Deny? ==> !v.outcome.Success?
    ensures v.Accept? ==>
      && Truthy(userId) && v.fields.userId == userId.value
      && !MissingFields(req) && StartOfDay(now) <= req.checkInDate.value < req.checkOutDate.value
  {
    if !Truthy(userId) then Deny(Unauthorized)
    else if MissingFields(req) then Deny(Rejected(MissingRequiredFields))
    else if req.checkInDate.value < StartOfDay(now) then Deny(Rejected(CheckInInPast))
    else if req.checkOutDate.value <= req.checkInDate.value then Deny(Rejected(CheckOutNotAfterCheckIn))
    else DecideRoom(rooms, bookings, userId.value, req)
  }

  /** The steps after validation: candidates, first fit, guest count, price. */
  function DecideRoom(rooms: seq<Room>, bookings: seq<Booking>, userId: string, req: Request): (v: Verdict)
    requires !MissingFields(req)
    ensures v.Deny? ==> v.outcome.Rejected? && (v.outcome.reason.NoAvailableRooms? || v.outcome.reason.GuestCountOutOfRange?)
    ensures v.Accept? ==>
      && v.fields.userId == userId && v.fields.status == Some("confirmed")
      && 1 <= v.fields.guestCount && Some(v.fields.guestCount) == req.guestCount
  {
    var checkIn := req.checkInDate.value;
    var checkOut := req.checkOutDate.value;
    var cands := Candidates(rooms, ToLower(req.roomType.value));
    if |cands| == 0 then Deny(Rejected(NoAvailableRooms(req.roomType.value)))
    else match FirstFit(cands, bookings, checkIn, checkOut)
      case None => Deny(Rejected(NoAvailableRooms(req.roomType.value)))
      case Some(room) =>
        var guests := req.guestCount.value;
        if guests < 1 || guests > room.maxOccupancy then Deny(Rejected(GuestCountOutOfRange(room.maxOccupancy)))
        else Accept(NewBookingFields(userId, room, req, room.price * Nights(checkIn, checkOut)))
  }

  /** The document the route creates for a selected room. */
  function NewBookingFields(userId: string, room: Room, req: Request, totalPrice: int): (f: BookingFields)
    requires req.checkInDate.Some? && req.checkOutDate.Some? && req.guestCount.Some?
    ensures Admissible(f) <==> userId != "" && room.roomNumber != "" && req.guestCount.value >= 1 && totalPrice >= 0
    ensures f.status.Some? && ParseStatus(f.status.value) == Some(Confirmed)
  {
    ParseRoomTypeName(room.roomType);
    BookingFields(userId, room.id, RoomTypeName(room.roomType), room.roomNumber,
                  req.checkInDate.value, req.checkOutDate.value, req.guestCount.value,
                  req.specialRequests, Some("confirmed"), totalPrice)
  }

  /** No session user id: 401, whatever the body holds. */
  lemma UnauthorizedIff(rooms: seq<Room>, bookings: seq<Booking>, userId: Option<string>, req: Request, now: int)
    ensures Decide(rooms, bookings, userId, req, now) == Deny(Unauthorized) <==> !Truthy(userId)
  {
  }

  /** A falsy field, a guest count of 0 included, is reported as missing before anything else is looked at. */
  lemma MissingFieldsRejected(rooms: seq<Room>, bookings: seq<Booking>, userId: Option<string>, req: Request, now: int)
    requires Truthy(userId)
    ensures Decide(rooms, bookings, userId, req, now) == Deny(Rejected(MissingRequiredFields)) <==> MissingFields(req)
    ensures req.guestCount == Some(0) ==> Decide(rooms, bookings, userId, req, now) == Deny(Rejected(MissingRequiredFields))
  {
  }

  /** The date rules: check-in before today's midnight, then check-out not after check-in. */
  lemma DateRulesRejected(rooms: seq<Room>, bookings: seq<Booking>, userId: Option<string>, req: Request, now: int)
    requires Truthy(userId) && !MissingFields(req)
    ensures req.checkInDate.value < StartOfDay(now) ==>
      Decide(rooms, bookings, userId, req, now) == Deny(Rejected(CheckInInPast))
    ensures StartOfDay(now) <= req.checkInDate.value && req.checkOutDate.value <= req.checkInDate.value ==>
      Decide(rooms, bookings, userId, req, now) == Deny(Rejected(CheckOutNotAfterCheckIn))
  {
  }

  /** No candidates and no free candidate give the same rejection. */
  lemma NoRoomRejected(rooms: seq<Room>, bookings: seq<Booking>, userId: Option<string>, req: Request, now: int)
    requires Truthy(userId) && !MissingFields(req)
    requires StartOfDay(now) <= req.checkInDate.value < req.checkOutDate.value
    requires forall r :: r in Candidates(rooms, ToLower(req.roomType.value)) ==>
               !RoomIsFree(bookings, r.id, req.checkInDate.value, req.checkOutDate.value)
    ensures Decide(rooms, bookings, userId, req, now) == Deny(Rejected(NoAvailableRooms(req.roomType.value)))
  {
    var cands := Candidates(rooms, ToLower(req.roomType.value));
    assert forall j :: 0 <= j < |cands| ==> cands[j] in cands;
  }

  /**
   * Once the dates pass, the outcome is decided by the first free candidate
   * alone: it is accepted iff the guest count fits that room, even when a
   * later room of the type would fit more guests.
   */
  lemma GuestCountAgainstSelectedRoom(rooms: seq<Room>, bookings: seq<Booking>, userId: Option<string>, req: Request, now: int)
    requires Truthy(userId) && !MissingFields(req)
    requires StartOfDay(now) <= req.checkInDate.value < req.checkOutDate.value
    requires FirstFit(Candidates(rooms, ToLower(req.roomType.value)), bookings,
                      req.checkInDate.value, req.checkOutDate.value).Some?
    ensures var room := FirstFit(Candidates(rooms, ToLower(req.roomType.value)), bookings,
                                 req.checkInDate.value, req.checkOutDate.value).value;
      if 1 <= req.guestCount.value <= room.maxOccupancy
      then Decide(rooms, bookings, userId, req, now).Accept?
      else Decide(rooms, bookings, userId, req, now) == Deny(Rejected(GuestCountOutOfRange(room.maxOccupancy)))
  {
    assert Decide(rooms, bookings, userId, req, now) == DecideRoom(rooms, bookings, userId.value, req);
  }

  /** What an accepted request creates, and why it is right to create it. */
  lemma AcceptedBooking(rooms: seq<Room>, bookings: seq<Booking>, userId: Option<string>, req: Request, now: int)
    requires Decide(rooms, bookings, userId, req, now).Accept?
    ensures var f := Decide(rooms, bookings, userId, req, now).fields;
      && Truthy(userId) && f.userId == userId.value
      && req.checkInDate == Some(f.checkIn) && req.checkOutDate == Some(f.checkOut)
      && StartOfDay(now) <= f.checkIn < f.checkOut
      && req.guestCount == Some(f.guestCount) && f.specialRequests == req.specialRequests
      && f.status == Some("confirmed")
      && exists k :: (0 <= k < |rooms| && rooms[k].id == f.roomId
        && rooms[k].isAvailable && rooms[k].roomNumber == f.roomNumber
        && RoomTypeName(rooms[k].roomType) == f.roomType == ToLower(req.roomType.value)
        && 1 <= f.guestCount <= rooms[k].maxOccupancy
        && RoomIsFree(bookings, rooms[k].id, f.checkIn, f.checkOut)
        && f.totalPrice == rooms[k].price * Nights(f.checkIn, f.checkOut))
  {
  }

  /** The selected room is the first candidate, in store order, that is free; every earlier one conflicts. */
  lemma AcceptedIsFirstFit(rooms: seq<Room>, bookings: seq<Booking>, userId: Option<string>, req: Request, now: int)
    requires Decide(rooms, bookings, userId, req, now).Accept?
    ensures var f := Decide(rooms, bookings, userId, req, now).fields;
      IsFirstFit(Candidates(rooms, ToLower(req.roomType.value)), bookings, f.roomId, f.checkIn, f.checkOut)
  {
  }

  /** With a valid inventory, the created document always passes the booking schema. */
  lemma AcceptedFieldsAdmissible(rooms: seq<Room>, bookings: seq<Booking>, userId: Option<string>, req: Request, now: int)
    requires InventoryValid(rooms)
    requires Decide(rooms, bookings, userId, req, now).Accept?
    ensures Admissible(Decide(rooms, bookings, userId, req, now).fields)
    ensures Decide(rooms, bookings, userId, req, now).fields.totalPrice >= 0
  {
    var checkIn, checkOut := req.checkInDate.value, req.checkOutDate.value;
    assert Decide(rooms, bookings, userId, req, now) == DecideRoom(rooms, bookings, userId.value, req);
    var room := FirstFit(Candidates(rooms, ToLower(req.roomType.value)), bookings, checkIn, checkOut).value;
    assert room.Valid();
    NightsAtLeastOne(checkIn, checkOut);
    TotalPriceNonNegative(room.price, Nights(checkIn, checkOut));
  }

  // ---------------------------------------------------------------------------
  // The store invariant

  /** No two active bookings of one room overlap (half-open). */
  predicate NoDoubleBooking(bookings: seq<Booking>) {
    forall i, j :: 0 <= i < j < |bookings|
      && bookings[i].roomId == bookings[j].roomId
      && bookings[i].status != Cancelled && bookings[j].status != Cancelled
      ==> !HalfOpenOverlap(bookings[i].checkIn, bookings[i].checkOut, bookings[j].checkIn, bookings[j].checkOut)
  }

  /** Appending a booking for a room that is free for its dates keeps the store free of double bookings. */
  lemma AppendFreeKeepsNoDoubleBooking(bookings: seq<Booking>, b: Booking)
    requires NoDoubleBooking(bookings)
    requires RoomIsFree(bookings, b.roomId, b.checkIn, b.checkOut)
    ensures NoDoubleBooking(bookings + [b])
  {
    RoomIsFreeIff(bookings, b.roomId, b.checkIn, b.checkOut);
    var all := bookings + [b];
    forall i, j | 0 <= i < j < |all| && all[i].roomId == all[j].roomId
        && all[i].status != Cancelled && all[j].status != Cancelled
      ensures !HalfOpenOverlap(all[i].checkIn, all[i].checkOut, all[j].checkIn, all[j].checkOut)
    {
      if j == |bookings| {
        assert all[i] == bookings[i] && all[j] == b;
        assert !Blocks(bookings[i], b.roomId, b.checkIn, b.checkOut);
      } else {
        assert all[i] == bookings[i] && all[j] == bookings[j];
      }
    }
  }

  /** Everything the store keeps true of its bookings. */
  predicate StoreValid(bookings: seq<Booking>, nextId: nat) {
    && (forall k :: 0 <= k < |bookings| ==> bookings[k].Valid())
    && (forall k :: 0 <= k < |bookings| ==> bookings[k].checkIn < bookings[k].checkOut)
    && (forall k :: 0 <= k < |bookings| ==> bookings[k].id < nextId)
    && (forall i, j :: 0 <= i < j < |bookings| ==> bookings[i].id != bookings[j].id)
    && NoDoubleBooking(bookings)
  }

  // ---------------------------------------------------------------------------
  // The store and the route handler

  /** The room and booking collections, handled one request at a time. */
  class BookingStore {
    const rooms: seq<Room>
    var bookings: seq<Booking>
    var nextId: nat

    ghost predicate Valid()
      reads this
    {
      InventoryValid(rooms) && StoreValid(bookings, nextId)
    }

    constructor (inventory: seq<Room>, existing: seq<Booking>, firstFreeId: nat)
      requires InventoryValid(inventory) && StoreValid(existing, firstFreeId)
      ensures Valid()
      ensures rooms == inventory && bookings == existing && nextId == firstFreeId
    {
      rooms := inventory;
      bookings := existing;
      nextId := firstFreeId;
    }

    /** The route's loop: query each candidate in order and stop at the first with no overlapping booking. */
    method FindFreeRoom(cands: seq<Room>, checkIn: int, checkOut: int) returns (selected: Option<Room>)
      ensures selected == FirstFit(cands, bookings, checkIn, checkOut)
    {
      selected := None;
      var i := 0;
      while i < |cands|
        invariant 0 <= i <= |cands|
        invariant forall j :: 0 <= j < i ==> !RoomIsFree(bookings, cands[j].id, checkIn, checkOut)
      {
        var existing := ExistingBookings(bookings, cands[i].id, checkIn, checkOut);
        if |existing| == 0 {
          selected := Some(cands[i]);
          break;
        }
        i := i + 1;
      }
    }

    /**
     * `Booking.create` as the route uses it: validate the document, give it the
     * next id and append it. The caller has checked that the room is free.
     */
    method Insert(fields: BookingFields) returns (b: Booking)
      requires Valid()
      requires Admissible(fields) && fields.checkIn < fields.checkOut
      requires RoomIsFree(bookings, fields.roomId, fields.checkIn, fields.checkOut)
      modifies this
      ensures Valid()
      ensures CreateBooking(fields, old(nextId)) == Ok(b)
      ensures bookings == old(bookings) + [b] && nextId == old(nextId) + 1
    {
      match CreateBooking(fields, nextId) {
        case Err(_) =>
          assert false;
        case Ok(created) =>
          b := created;
          AppendFreeKeepsNoDoubleBooking(bookings, b);
          bookings := bookings + [b];
          nextId := nextId + 1;
      }
    }

    /** `POST /api/bookings` for one request, with the session's user id and the current time. */
    method Admit(userId: Option<string>, req: Request, now: int) returns (out: Outcome)
      requires Valid()
      modifies this
      ensures Valid()
      ensures match Decide(rooms, old(bookings), userId, req, now)
        case Deny(o) =>
          out == o && bookings == old(bookings) && nextId == old(nextId)
        case Accept(f) =>
          && CreateBooking(f, old(nextId)).Ok?
          && bookings == old(bookings) + [CreateBooking(f, old(nextId)).value]
          && nextId == old(nextId) + 1
          && out == Success(Respond(CreateBooking(f, old(nextId)).value))
    {
      ghost var verdict := Decide(rooms, bookings, userId, req, now);
      if !Truthy(userId) {
        return Unauthorized;
      }
      if MissingFields(req) {
        return Rejected(MissingRequiredFields);
      }
      var checkIn, checkOut := req.checkInDate.value, req.checkOutDate.value;
      if checkIn < StartOfDay(now) {
        return Rejected(CheckInInPast);
      }
      if checkOut <= checkIn {
        return Rejected(CheckOutNotAfterCheckIn);
      }
      assert verdict == DecideRoom(rooms, bookings, userId.value, req);
      var available := Candidates(rooms, ToLower(req.roomType.value));
      if |available| == 0 {
        return Rejected(NoAvailableRooms(req.roomType.value));
      }
      var selected := FindFreeRoom(available, checkIn, checkOut);
      if selected.None? {
        return Rejected(NoAvailableRooms(req.roomType.value));
      }
      var room := selected.value;
      var guests := req.guestCount.value;
      if guests < 1 || guests > room.maxOccupancy {
        return Rejected(GuestCountOutOfRange(room.maxOccupancy));
      }
      var nights := Nights(checkIn, checkOut);
      var fields := NewBookingFields(userId.value, room, req, room.price * nights);
      assert verdict == Accept(fields);
      AcceptedFieldsAdmissible(rooms, bookings, userId, req, now);
      AcceptedBooking(rooms, bookings, userId, req, now);
      var b := Insert(fields);
      out := Success(Respond(b));
    }
  }
}
