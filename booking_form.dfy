/**
 * The client-side booking form: its state (check-in, check-out, guest count,
 * special requests) and the handlers that update it, the date and guest-count
 * validators, the earliest selectable check-out, and the submit gate that
 * decides whether a request is handed to the page.
 *
 * Date inputs hold "YYYY-MM-DD" or ""; here a set input is `Some(t)` with `t`
 * the timestamp `new Date(value)` gives, and an empty one is `None`.
 */
module BookingFormComponent {
  import opened Common
  import opened HotelRoomModel
  import BookingsRoute

  // ---------------------------------------------------------------------------
  // Validators

  /** `validateDates`: all three instants cut to midnight; check-in not before today, check-out after check-in. */
  function ValidateDates(now: int, checkIn: int, checkOut: int): (ok: bool)
    ensures ok <==> StartOfDay(now) <= StartOfDay(checkIn) < StartOfDay(checkOut)
  {
    var today := StartOfDay(now);
    var checkInDay := StartOfDay(checkIn);
    var checkOutDay := StartOfDay(checkOut);
    if checkInDay < today then false
    else if checkOutDay <= checkInDay then false
    else true
  }

  /** `validateGuestCount` for the room shown in the form. */
  function ValidateGuestCount(count: int, maxOccupancy: int): (ok: bool)
    ensures ok <==> 1 <= count <= maxOccupancy
  {
    if count < 1 then false
    else if count > maxOccupancy then false
    else true
  }

  /** Dates the form accepts pass the route's date checks at the same instant: the form is the stricter of the two. */
  lemma FormDatesPassRouteDates(now: int, checkIn: int, checkOut: int)
    requires ValidateDates(now, checkIn, checkOut)
    ensures StartOfDay(now) <= checkIn
    ensures checkIn < checkOut
  {
    MidnightsADayApart(StartOfDay(checkIn), StartOfDay(checkOut));
  }

  // ---------------------------------------------------------------------------
  // Guest count

  /**
   * The guest-count `onChange` with the clamp corrected: `min(max(1, parsed),
   * maxOccupancy)` on an entry that parses, and the count kept as it was on
   * one that does not. The handler as written stores NaN in that case; that
   * path is `ClampAsWritten` below.
   */
  function ClampGuestCount(parsed: Option<int>, current: int, maxOccupancy: int): (g: int)
    ensures parsed.None? ==> g == current
    ensures parsed.Some? && 1 <= maxOccupancy ==> 1 <= g <= maxOccupancy
    ensures parsed.Some? && 1 <= parsed.value <= maxOccupancy ==> g == parsed.value
    ensures parsed.Some? && parsed.value < 1 ==> g == (if 1 <= maxOccupancy then 1 else maxOccupancy)
    ensures parsed.Some? && parsed.value > maxOccupancy ==> g == maxOccupancy
  {
    match parsed
    case None => current
    case Some(v) =>
      var atLeastOne := if v < 1 then 1 else v;
      if atLeastOne > maxOccupancy then maxOccupancy else atLeastOne
  }

  /** Whatever is typed, the stored guest count keeps passing `validateGuestCount`. */
  lemma ClampedCountIsValid(parsed: Option<int>, current: int, maxOccupancy: int)
    requires ValidateGuestCount(current, maxOccupancy)
    ensures ValidateGuestCount(ClampGuestCount(parsed, current, maxOccupancy), maxOccupancy)
  {
  }

  /** A JavaScript number as far as the clamp is concerned: an integer or NaN. */
  datatype JsNumber = Finite(n: int) | NaN

  /** `Math.max`: NaN if either argument is NaN. */
  function JsMax(a: JsNumber, b: JsNumber): JsNumber {
    if a.NaN? || b.NaN? then NaN else if a.n >= b.n then a else b
  }

  /** `Math.min`: NaN if either argument is NaN. */
  function JsMin(a: JsNumber, b: JsNumber): JsNumber {
    if a.NaN? || b.NaN? then NaN else if a.n <= b.n then a else b
  }

  /** `<` on numbers: false whenever NaN is involved. */
  predicate JsLess(a: JsNumber, b: JsNumber) {
    a.Finite? && b.Finite? && a.n < b.n
  }

  /** The clamp exactly as the handler writes it, on the raw `parseInt` result. */
  function ClampAsWritten(parsed: JsNumber, maxOccupancy: int): (r: JsNumber)
    ensures r.NaN? <==> parsed.NaN?
    ensures r.Finite? ==> r.n <= maxOccupancy
    ensures r.Finite? && 1 <= maxOccupancy ==> 1 <= r.n
  {
    JsMin(JsMax(Finite(1), parsed), Finite(maxOccupancy))
  }

  /** `validateGuestCount` on a raw number: both comparisons are false for NaN. */
  function ValidateGuestCountAsWritten(count: JsNumber, maxOccupancy: int): (ok: bool)
    ensures ok <==> count.NaN? || 1 <= count.n <= maxOccupancy
  {
    !JsLess(count, Finite(1)) && !JsLess(Finite(maxOccupancy), count)
  }

  /** On numbers that parse, the corrected clamp and validator agree with the code as written. */
  lemma ClampAgreesOnNumbers(v: int, current: int, maxOccupancy: int)
    ensures ClampAsWritten(Finite(v), maxOccupancy) == Finite(ClampGuestCount(Some(v), current, maxOccupancy))
    ensures ValidateGuestCountAsWritten(Finite(v), maxOccupancy) == ValidateGuestCount(v, maxOccupancy)
  {
  }

  /**
   * As written, an entry that does not parse (an emptied field gives
   * `parseInt("") = NaN`) is stored as NaN, and `validateGuestCount` lets NaN
   * through, so the count leaves `[1, maxOccupancy]` unnoticed.
   */
  lemma ClampAsWrittenPassesNaN(maxOccupancy: int)
    requires 1 <= maxOccupancy
    ensures ClampAsWritten(NaN, maxOccupancy) == NaN
    ensures ValidateGuestCountAsWritten(ClampAsWritten(NaN, maxOccupancy), maxOccupancy)
    ensures forall c :: ClampAsWritten(NaN, maxOccupancy) != Finite(c)
  {
  }

  // ---------------------------------------------------------------------------
  // Check-out bounds

  /** `minCheckOut`: the day after check-in, or today when no check-in is set. */
  function MinCheckOut(checkIn: Option<int>, now: int): (m: int)
    ensures m % DayMs == 0
    ensures checkIn.None? ==> m == StartOfDay(now)
    ensures checkIn.Some? ==> StartOfDay(checkIn.value) + DayMs == m
    ensures checkIn.Some? && checkIn.value % DayMs == 0 ==> m == checkIn.value + DayMs
  {
    match checkIn
    case None => StartOfDay(now)
    case Some(t) => StartOfDay(t + DayMs)
  }

  /** Any check-out at or after `minCheckOut` satisfies the check-out rule of `validateDates`. */
  lemma MinCheckOutIsAfterCheckIn(checkIn: int, checkOut: int, now: int)
    requires MinCheckOut(Some(checkIn), now) <= checkOut
    requires StartOfDay(now) <= StartOfDay(checkIn)
    ensures ValidateDates(now, checkIn, checkOut)
  {
    var m := MinCheckOut(Some(checkIn), now);
    StartOfDayMonotone(m, checkOut);
    assert StartOfDay(m) == m;
  }

  /** Picking a check-in at or after the current check-out clears the check-out. */
  function CheckOutStale(checkOut: Option<int>, newCheckIn: Option<int>): (stale: bool)
    ensures stale ==> checkOut.Some?
    ensures !stale && checkOut.Some? && newCheckIn.Some? ==> newCheckIn.value < checkOut.value
  {
    checkOut.Some? && newCheckIn.Some? && checkOut.value <= newCheckIn.value
  }

  // ---------------------------------------------------------------------------
  // Submitting

  /** The request handed to `onBookRoom`. */
  datatype BookingRequest = BookingRequest(
    userId: string,
    roomType: RoomType,
    checkInDate: int,
    checkOutDate: int,
    guestCount: int,
    specialRequests: Option<string>)

  /** The "Book Now" button is enabled: not loading and both dates set. */
  function SubmitEnabled(isLoading: bool, checkIn: Option<int>, checkOut: Option<int>): (enabled: bool)
    ensures enabled ==> checkIn.Some? && checkOut.Some?
    ensures isLoading || checkIn.None? || checkOut.None? ==> !enabled
  {
    !isLoading && checkIn.Some? && checkOut.Some?
  }

  /**
   * `handleSubmit` on the form's current values: the request it passes to
   * `onBookRoom`, or `None` when it returns early (or the button is disabled).
   */
  function HandleSubmit(room: Room, checkIn: Option<int>, checkOut: Option<int>, guestCount: int,
                        specialRequests: string, userId: Option<string>, now: int, isLoading: bool)
    : (sent: Option<BookingRequest>)
    ensures sent.Some? <==>
      && SubmitEnabled(isLoading, checkIn, checkOut)
      && Truthy(userId)
      && ValidateDates(now, checkIn.value, checkOut.value)
      && ValidateGuestCount(guestCount, room.maxOccupancy)
    ensures sent.Some? ==>
      && sent.value.userId == userId.value && sent.value.roomType == room.roomType
      && Some(sent.value.checkInDate) == checkIn && Some(sent.value.checkOutDate) == checkOut
      && sent.value.guestCount == guestCount
      && (sent.value.specialRequests.None? <==> specialRequests == "")
      && (sent.value.specialRequests.Some? ==> sent.value.specialRequests.value == specialRequests)
  {
    if !SubmitEnabled(isLoading, checkIn, checkOut) then None
    else if !Truthy(userId) then None
    else if !ValidateDates(now, checkIn.value, checkOut.value) then None
    else if !ValidateGuestCount(guestCount, room.maxOccupancy) then None
    else Some(BookingRequest(userId.value, room.roomType, checkIn.value, checkOut.value, guestCount,
                             if specialRequests == "" then None else Some(specialRequests)))
  }

  /** The body the booking page posts for a request: the form's fields with the selected room's type name. */
  function RouteRequest(sent: BookingRequest): (req: BookingsRoute.Request)
    ensures req.roomType == Some(RoomTypeName(sent.roomType))
    ensures req.checkInDate == Some(sent.checkInDate) && req.checkOutDate == Some(sent.checkOutDate)
    ensures req.guestCount == Some(sent.guestCount) && req.specialRequests == sent.specialRequests
  {
    BookingsRoute.Request(Some(RoomTypeName(sent.roomType)), Some(sent.checkInDate), Some(sent.checkOutDate),
                          Some(sent.guestCount), sent.specialRequests)
  }

  /**
   * A request the form lets through, handled by the route at the same
   * instant, passes the route's field and date checks.
   */
  lemma SubmittedRequestPassesRouteValidation(room: Room, checkIn: Option<int>, checkOut: Option<int>, guestCount: int,
                                              specialRequests: string, userId: Option<string>, now: int, isLoading: bool)
    requires HandleSubmit(room, checkIn, checkOut, guestCount, specialRequests, userId, now, isLoading).Some?
    ensures var sent := HandleSubmit(room, checkIn, checkOut, guestCount, specialRequests, userId, now, isLoading).value;
      && !BookingsRoute.MissingFields(RouteRequest(sent))
      && StartOfDay(now) <= sent.checkInDate < sent.checkOutDate
      && 1 <= sent.guestCount <= room.maxOccupancy
  {
    FormDatesPassRouteDates(now, checkIn.value, checkOut.value);
  }

  // ---------------------------------------------------------------------------
  // The component state

  /** The form's React state for one room; each handler is a method. */
  class BookingForm {
    const room: Room
    var checkIn: Option<int>
    var checkOut: Option<int>
    var guestCount: int
    var specialRequests: string

    ghost predicate Valid()
      reads this
    {
      room.Valid() && ValidateGuestCount(guestCount, room.maxOccupancy)
    }

    /** The initial state: no dates, one guest, no special request. */
    constructor (room: Room)
      requires room.Valid()
      ensures Valid() && this.room == room
      ensures checkIn.None? && checkOut.None? && guestCount == 1 && specialRequests == ""
    {
      this.room := room;
      checkIn := None;
      checkOut := None;
      guestCount := 1;
      specialRequests := "";
    }

    /** The check-in `onChange`: store the value and clear a check-out that is no longer after it. */
    method ChangeCheckIn(value: Option<int>)
      requires Valid()
      modifies this
      ensures Valid()
      ensures checkIn == value
      ensures checkOut == if CheckOutStale(old(checkOut), value) then None else old(checkOut)
      ensures guestCount == old(guestCount) && specialRequests == old(specialRequests)
      ensures checkIn.Some? && checkOut.Some? ==> checkIn.value < checkOut.value
    {
      checkIn := value;
      if CheckOutStale(checkOut, value) {
        checkOut := None;
      }
    }

    /** The check-out `onChange`: the value is stored as given (`min` is only a hint to the date picker). */
    method ChangeCheckOut(value: Option<int>)
      requires Valid()
      modifies this
      ensures Valid()
      ensures checkOut == value
      ensures checkIn == old(checkIn) && guestCount == old(guestCount) && specialRequests == old(specialRequests)
    {
      checkOut := value;
    }

    /** The guest-count `onChange` on the parsed entry (`None` when it does not parse). */
    method ChangeGuestCount(parsed: Option<int>)
      requires Valid()
      modifies this
      ensures Valid()
      ensures guestCount == ClampGuestCount(parsed, old(guestCount), room.maxOccupancy)
      ensures checkIn == old(checkIn) && checkOut == old(checkOut) && specialRequests == old(specialRequests)
    {
      guestCount := ClampGuestCount(parsed, guestCount, room.maxOccupancy);
    }

    /** The special-requests `onChange`. */
    method ChangeSpecialRequests(text: string)
      requires Valid()
      modifies this
      ensures Valid()
      ensures specialRequests == text
      ensures checkIn == old(checkIn) && checkOut == old(checkOut) && guestCount == old(guestCount)
    {
      specialRequests := text;
    }
  }
}
