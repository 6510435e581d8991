# Hotel booking admission, modelled in Dafny

This project models the core of a hotel room booking application. That core is
the admission check behind `POST /api/bookings`, plus the schemas and the
client-side form around it.

- The check takes an authenticated caller and a body `{ roomType, checkInDate,
  checkOutDate, guestCount, specialRequests? }`.
- It validates the fields and dates.
- It lists the available rooms of the requested type in store order.
- It picks the first room with no overlapping non-cancelled booking. The overlap
  test is half-open, so touching dates are not a conflict.
- It checks the guest count against that room only.
- It prices the stay as `price * ceil(span / day)` and appends a `confirmed`
  booking.

Files and modules:

- `common.dfy` (`Common`): options and results, the day length, midnight
  truncation, the room-type enum, and ASCII lower-casing.
- `booking_model.dfy` (`BookingModel`): the booking document, its status enum,
  and the schema's validation and defaults on create.
- `hotel_room.dfy` (`HotelRoomModel`): the room document and its schema. Also
  the room's own `checkAvailability`, whose inclusive test counts touching
  dates as a conflict.
- `bookings_route.dfy` (`BookingsRoute`): the route.
  - `Decide` is a pure function of the store that gives the verdict.
  - The class `BookingStore` holds the inventory (`seq<Room>`), the bookings
    (`seq<Booking>`) and the next booking id.
  - `BookingStore.FindFreeRoom` is the route's first-fit loop.
  - `BookingStore.Admit` is the handler. It follows `Decide` and keeps the store
    invariant: every booking satisfies the schema, every booking has check-in
    before check-out, ids are distinct, and no two active bookings of one room
    overlap.
- `booking_form.dfy` (`BookingFormComponent`): the form.
  - Its React state is the class `BookingForm`, with one method per `onChange`
    handler.
  - Also here: the two validators, `minCheckOut`, the guest-count clamp and the
    submit gate.

Dates are integer millisecond timestamps. A request date is `Some(t)` when
its body value is truthy and parses to `t`; a falsy body value (absent,
`null`, `""` or `0`) is `None`, which the route reports as a missing field.
The current instant `now` is a parameter and is cut to midnight by
`StartOfDay`. The session's user id is an optional input.

Nights are the ceiling of the millisecond span over one day, as the route
computes them.

## Model

| member | source | states |
|---|---|---|
| `Common.StartOfDay` | src/app/api/bookings/route.ts:27-28 | midnight truncation gives the midnight that starts the instant's day: at most the instant, less than a day before it, and a whole number of days |
| `Common.RoomTypeName` | src/models/HotelRoom.ts:5 | every room type has a non-empty stored name |
| `Common.ParseRoomType` | src/models/HotelRoom.ts:28-32 | the room-type enum accepts exactly `standard`, `deluxe` and `suite`, and maps each back to its name |
| `Common.ParseRoomTypeName` | src/models/Booking.ts:26-30 | the stored name of a room type passes the booking schema's enum and reads back as the same type |
| `Common.ToLower` | src/app/api/bookings/route.ts:40 | lower-casing keeps the length, leaves no upper-case ASCII letter, and leaves a string with none unchanged |
| `Common.ToLowerRoomTypeName` | src/app/api/bookings/route.ts:40 | every stored type name is already lower case, so a requested type that differs from it only in ASCII case is matched against that name |
| `BookingModel.StatusName` | src/models/Booking.ts:12 | every status has a non-empty stored name |
| `BookingModel.ParseStatus` | src/models/Booking.ts:51-55 | the status enum accepts exactly `pending`, `confirmed` and `cancelled` |
| `BookingModel.CreateBooking` | src/models/Booking.ts:16-63 | a document is stored iff the required strings are non-empty, both enums hold, `guestCount >= 1` and `totalPrice >= 0`. The stored booking is valid and keeps every field. A missing status becomes `pending` |
| `HotelRoomModel.CreateRoom` | src/models/HotelRoom.ts:22-71 | a room is stored iff the required fields are present, the type is in the enum, `price >= 0` and `bedsCount`, `maxOccupancy`, `size >= 1`. The stored room is valid. `isAvailable` defaults to true |
| `HotelRoomModel.FindOne` | src/models/HotelRoom.ts:77-86 | returns a matching booking from the store, or `None` only when no booking of the room that is not cancelled meets the dates inclusively |
| `HotelRoomModel.CheckAvailability` | src/models/HotelRoom.ts:74-89 | true iff no booking with this room's id and a status other than cancelled has `checkIn <= checkOut' && checkOut >= checkIn'` |
| `HotelRoomModel.IgnoredBookingsKeepAvailability` | src/models/HotelRoom.ts:78-79 | adding a cancelled booking, or a booking of another room, never changes the room's availability |
| `BookingsRoute.Respond` | src/app/api/bookings/route.ts:102-111 | the response carries the booking's dates, guest count, room number and type, special requests, status and total price |
| `BookingsRoute.RespondHidesIdentifiers` | src/app/api/bookings/route.ts:102-111 | the response is the same whatever the booking id, user id and room id: none of them is echoed |
| `BookingsRoute.Nights` | src/app/api/bookings/route.ts:85 | the night count is the ceiling of the span over one day: `(n-1)*day < span <= n*day` |
| `BookingsRoute.NightsAtLeastOne` | src/app/api/bookings/route.ts:34-36 | once check-out is after check-in, at least one night is charged |
| `BookingsRoute.NightsExamples` | src/app/api/bookings/route.ts:85-86 | a three-day stay is 3 nights, which is 300 at price 100. A day plus one second is 2 nights |
| `BookingsRoute.ExistingBookings` | src/app/api/bookings/route.ts:54-63 | the query returns exactly the store's bookings of the room that are not cancelled and overlap `[checkIn, checkOut)` half-open |
| `BookingsRoute.RoomIsFreeIff` | src/app/api/bookings/route.ts:54-65 | a room is free iff none of its bookings that are not cancelled has `b.checkIn < checkOut && b.checkOut > checkIn` |
| `BookingsRoute.BlocksImpliesInclusiveBlocks` | src/app/api/bookings/route.ts:59-60 | every booking the half-open route test catches is also caught by the inclusive test |
| `BookingsRoute.TouchingBlocksOnlyInclusively` | src/models/HotelRoom.ts:82-83 | a booking that ends exactly when the request starts conflicts only under the inclusive test |
| `BookingsRoute.AvailableImpliesRouteFree` | src/models/HotelRoom.ts:77-88 | a room that `checkAvailability` calls free is free for the route |
| `BookingsRoute.TouchingBookingSeparatesTheTests` | src/models/HotelRoom.ts:80-85 | a touching booking leaves the room free for the route but unavailable for `checkAvailability`, so the inclusive test is strictly more conservative |
| `BookingsRoute.JuneBookingExample` | src/app/api/bookings/route.ts:57-62 | a booking for June 1-5 leaves the room free for June 5-8 and taken for June 4-6 |
| `BookingsRoute.Candidates` | src/app/api/bookings/route.ts:39-42 | candidates are exactly the available rooms whose type name equals the lower-cased request type |
| `BookingsRoute.CandidatesKeepOrder` | src/app/api/bookings/route.ts:39-42 | the candidate filter keeps store order: it distributes over concatenation |
| `BookingsRoute.UnknownTypeHasNoCandidates` | src/app/api/bookings/route.ts:39-48 | a requested type that is not in the enum finds no candidates |
| `BookingsRoute.FirstFreeIndex` | src/app/api/bookings/route.ts:51-69 | returns the least index whose room is free, or the number of candidates when none is |
| `BookingsRoute.FirstFit` | src/app/api/bookings/route.ts:51-69 | `None` iff every candidate conflicts. Otherwise the first free candidate, with every earlier one conflicting |
| `BookingsRoute.MissingFields` | src/app/api/bookings/route.ts:19-22 | a request with no missing field has a non-empty type, both dates and a non-zero guest count. An empty type or a guest count of 0 counts as missing |
| `BookingsRoute.Decide` | src/app/api/bookings/route.ts:8-111 | the route's verdict in the route's order. A denial is never a success. An accepted request had a session user, no missing field, a check-in not before today and a check-out after check-in, and its document carries that user |
| `BookingsRoute.DecideRoom` | src/app/api/bookings/route.ts:39-100 | after validation, the route only rejects for "no available rooms" or for the guest count. An accepted document is `confirmed`, carries the user and the request's guest count, and that count is at least 1 |
| `BookingsRoute.NewBookingFields` | src/app/api/bookings/route.ts:89-100 | the document the route creates passes the booking schema iff the user id and room number are non-empty, the guest count is at least 1 and the price is non-negative. Its status parses as `confirmed` |
| `BookingsRoute.UnauthorizedIff` | src/app/api/bookings/route.ts:10-13 | the answer is 401 iff there is no session user id |
| `BookingsRoute.MissingFieldsRejected` | src/app/api/bookings/route.ts:19-22 | with a user, the answer is "missing required fields" iff some field is falsy. A guest count of 0 lands there |
| `BookingsRoute.DateRulesRejected` | src/app/api/bookings/route.ts:25-36 | check-in before today's midnight is rejected. Otherwise check-out at or before check-in is rejected |
| `BookingsRoute.NoRoomRejected` | src/app/api/bookings/route.ts:39-75 | no candidates and all-conflicting candidates give the same "no available rooms of type" rejection |
| `BookingsRoute.GuestCountAgainstSelectedRoom` | src/app/api/bookings/route.ts:77-82 | after first fit, the request is accepted iff `1 <= guestCount <= selected.maxOccupancy`. Otherwise it is rejected with that room's maximum |
| `BookingsRoute.AcceptedBooking` | src/app/api/bookings/route.ts:84-100 | an accepted request creates a `confirmed` document. It carries the session user, the request's dates, guest count and special requests, and the id, type and number of an available inventory room of the requested type that is free for the dates and fits the guests. Check-in is not before today, check-out is after check-in, and `totalPrice = price * nights` |
| `BookingsRoute.AcceptedIsFirstFit` | src/app/api/bookings/route.ts:50-69 | the booked room is the first free candidate, and every earlier candidate conflicts |
| `BookingsRoute.AcceptedFieldsAdmissible` | src/app/api/bookings/route.ts:89-100 | with a valid inventory, the created document always passes the booking schema and its total price is non-negative |
| `BookingsRoute.AppendFreeKeepsNoDoubleBooking` | src/app/api/bookings/route.ts:53-100 | appending a booking for a room free on its dates keeps every room free of overlapping active bookings |
| `BookingsRoute.BookingStore.constructor` | src/app/api/bookings/route.ts:39-63 | the store starts from a valid inventory and a valid list of bookings, which it holds unchanged |
| `BookingsRoute.BookingStore.FindFreeRoom` | src/app/api/bookings/route.ts:51-69 | the loop with early exit selects exactly the first-fit room |
| `BookingsRoute.BookingStore.Insert` | src/app/api/bookings/route.ts:89-100 | creating the booking appends exactly one validated booking with the next id and keeps the store invariant |
| `BookingsRoute.BookingStore.Admit` | src/app/api/bookings/route.ts:8-111 | the handler answers as `Decide` does. It leaves the store unchanged on 401 and 400. On success it appends exactly the created booking and returns its projection. It keeps the store invariant |
| `BookingFormComponent.ValidateDates` | src/components/BookingForm.tsx:23-44 | true iff `today <= day(checkIn) < day(checkOut)`, with all three cut to midnight |
| `BookingFormComponent.ValidateGuestCount` | src/components/BookingForm.tsx:46-58 | true iff `1 <= count <= room.maxOccupancy` |
| `BookingFormComponent.FormDatesPassRouteDates` | src/components/BookingForm.tsx:33-41 | dates the form accepts pass the route's date checks at the same instant |
| `BookingFormComponent.ClampGuestCount` | src/components/BookingForm.tsx:150 | a parsed entry is clamped into `[1, maxOccupancy]`: kept when inside, raised to 1 below, lowered to the maximum above. An entry that does not parse keeps the count |
| `BookingFormComponent.ClampedCountIsValid` | src/components/BookingForm.tsx:150 | whatever is typed, the stored count keeps passing `validateGuestCount` |
| `BookingFormComponent.ClampAgreesOnNumbers` | src/components/BookingForm.tsx:150 | on entries that parse, the clamp and validator agree with the code as written |
| `BookingFormComponent.ClampAsWritten` | src/components/BookingForm.tsx:150 | the clamp as written gives NaN iff the parsed entry is NaN. Otherwise the result is at most `maxOccupancy`, and at least 1 when the room takes a guest |
| `BookingFormComponent.ValidateGuestCountAsWritten` | src/components/BookingForm.tsx:46-58 | the validator as written accepts a count iff it is NaN or lies in `[1, maxOccupancy]` |
| `BookingFormComponent.ClampAsWrittenPassesNaN` | src/components/BookingForm.tsx:150 | as written, an entry that does not parse is stored as NaN and passes `validateGuestCount` |
| `BookingFormComponent.MinCheckOut` | src/components/BookingForm.tsx:94-96 | the earliest check-out is the midnight one day after check-in's day, or today with no check-in |
| `BookingFormComponent.CheckOutStale` | src/components/BookingForm.tsx:111-115 | only a set check-out can be stale. A check-out that is kept after a check-in is picked lies after it |
| `BookingFormComponent.MinCheckOutIsAfterCheckIn` | src/components/BookingForm.tsx:94-96 | any check-out at or after the minimum satisfies the check-out rule of `validateDates` |
| `BookingFormComponent.SubmitEnabled` | src/components/BookingForm.tsx:175 | the "Book Now" button is disabled while loading or while either date is empty. An enabled button means both dates are set |
| `BookingFormComponent.HandleSubmit` | src/components/BookingForm.tsx:60-88 | a request is sent iff the button is enabled, a session user id exists and both validators pass. It carries the form's values, and an empty special request is sent as absent |
| `BookingFormComponent.RouteRequest` | src/components/BookingForm.tsx:80-87 | the body the booking page posts for the request handed to `onBookRoom` carries the form's dates, guest count and special requests. The booking page builds it (`booking/page.tsx`, lines 44-48): the room type is overwritten with the selected room's type name and a `userId` is added that the route ignores |
| `BookingFormComponent.SubmittedRequestPassesRouteValidation` | src/components/BookingForm.tsx:60-87 | a request the form sends passes the route's field and date checks at the same instant, with a guest count in the shown room's range |
| `BookingFormComponent.BookingForm.constructor` | src/components/BookingForm.tsx:16-19 | the form starts with no dates, one guest and no special request |
| `BookingFormComponent.BookingForm.ChangeCheckIn` | src/components/BookingForm.tsx:108-116 | stores the new check-in and clears check-out iff check-out is at or before it. Afterwards, when both are set, check-in is before check-out |
| `BookingFormComponent.BookingForm.ChangeCheckOut` | src/components/BookingForm.tsx:130 | stores the check-out as given and changes nothing else |
| `BookingFormComponent.BookingForm.ChangeGuestCount` | src/components/BookingForm.tsx:150 | stores the clamped count, which stays in `[1, maxOccupancy]` |
| `BookingFormComponent.BookingForm.ChangeSpecialRequests` | src/components/BookingForm.tsx:167 | stores the text and changes nothing else |

## Left out

- Date parsing, `toISOString` and time zones: dates are integer timestamps, and midnight is computed from the epoch with no local offset. A date string that fails to parse (an Invalid Date, whose comparisons are all false) is not modelled.
- JavaScript numbers: prices, guest counts and dates are integers. Fractional values and non-numeric JSON values are not modelled. `Math.ceil` of the floating-point quotient becomes exact integer ceiling division.
- `toLowerCase` is modelled on ASCII letters only. A `roomType` that is not a string, which would throw, is not modelled.
- The `catch` branch that answers 500 is left out: it covers store and connection failures. Schema validation could also reach it, but the model proves it never fails for the route's document.
- Concurrency is left out: each request runs alone against the store. The race between the overlap query and `Booking.create` is therefore not modelled, and the no-double-booking invariant holds only under that sequential reading.
- HTTP status codes and message texts are not numbers and strings here: `Success`, `Rejected(reason)` and `Unauthorized` stand for 201, 400 and 401, and each reason carries the values its message interpolates.
- Authentication (`next-auth`, password hashing, user lookup) and the connection cache are left out: the session user id is an input.
- The rooms listing route, the seeding script, the user schema with its e-mail pattern, the older room schema with other type names, the booking list page and all rendering are not part of this model.
- Toast messages are left out: the validators return only their verdict.
- The `timestamps` option (`createdAt`, `updatedAt`) is left out, and so is the `completed` status, which the client type lists but the schema rejects.
- `BookingFormComponent.HandleSubmit`: when the "Book Now" button is disabled (loading, or a date empty), the model sends nothing. The browser never fires the handler in that case, so the handler's own behaviour on empty dates is not modelled.
- `BookingFormComponent.SubmittedRequestPassesRouteValidation`: the route may select a different room of the same type with a smaller `maxOccupancy`, so this lemma does not claim the request is admitted.
- `BookingsRoute.BookingStore.Insert` requires that the room is free for the booking's dates. `Booking.create` itself does not check this: the route checks it first, and the store invariant depends on it.
- `BookingFormComponent.ClampGuestCount` applies the corrected clamp of the Findings row: an entry that does not parse keeps the previous count, where the handler as written stores NaN. The as-written NaN path is modelled only by `BookingFormComponent.ClampAsWritten`.
- `BookingFormComponent.BookingForm.ChangeGuestCount` applies the corrected clamp of the Findings row, so the NaN guest count the handler as written reaches on an emptied field is not a state of `BookingForm`. That path is modelled only by `BookingFormComponent.ClampAsWritten`.
- Schema `required` on numbers, dates and ids always holds here, since those fields are always present. Only the required strings can fail.

## Findings

| source | as written | input that shows it | evidently intended | confidence | as-written member | corrected member |
|---|---|---|---|---|---|---|
| src/components/BookingForm.tsx:150 | the guest count is set to `Math.min(Math.max(1, parseInt(v)), maxOccupancy)`. `parseInt` of an emptied field is NaN, `Math.max` and `Math.min` pass NaN through, and `validateGuestCount` (lines 46-58) accepts NaN because both of its comparisons are false | clearing the "Number of Guests" field sets the state to NaN, and `validateGuestCount` would accept that state. The defect stays latent: the input is `required` (line 153), so the browser blocks the submit, and a NaN that was posted would become `null` in JSON and be rejected by the route as a missing field | the stored count stays in `[1, maxOccupancy]`, so the validator can rely on it | low; a latent state defect, not reachable as a booking; not executed | `BookingFormComponent.ClampAsWrittenPassesNaN` | `BookingFormComponent.ClampedCountIsValid` |
