/** Values shared by the booking schema, the room schema, the booking route and the booking form. */
module Common {

  datatype Option<+T> = None | Some(value: T) {
    function GetOr(default: T): T {
      match this
      case Some(v) => v
      case None => default
    }
  }

  datatype Result<+T, +E> = Ok(value: T) | Err(error: E)

  /** One day in milliseconds: 1000 * 60 * 60 * 24. */
  const DayMs: int := 86400000

  /**
   * `setHours(0, 0, 0, 0)` on a timestamp: the midnight that starts the day
   * holding `t`. Days are counted from the epoch (no time zone).
   */
  function StartOfDay(t: int): (d: int)
    ensures d <= t < d + DayMs
    ensures d % DayMs == 0
  {
    t - t % DayMs
  }

  /** Two distinct midnights are at least one day apart. */
  lemma MidnightsADayApart(a: int, b: int)
    requires a % DayMs == 0 && b % DayMs == 0
    requires a < b
    ensures a + DayMs <= b
  {
    assert a == DayMs * (a / DayMs);
    assert b == DayMs * (b / DayMs);
    assert a / DayMs < b / DayMs;
  }

  /** A later instant never starts an earlier day. */
  lemma StartOfDayMonotone(s: int, t: int)
    requires s <= t
    ensures StartOfDay(s) <= StartOfDay(t)
  {
    if StartOfDay(t) < StartOfDay(s) {
      MidnightsADayApart(StartOfDay(t), StartOfDay(s));
    }
  }

  /** The room categories accepted by both schemas. */
  datatype RoomType = Standard | Deluxe | Suite

  /** The stored enum string of a room type. */
  function RoomTypeName(t: RoomType): (s: string)
    ensures s != []
  {
    match t
    case Standard => "standard"
    case Deluxe => "deluxe"
    case Suite => "suite"
  }

  /** The schema's `enum: ['standard', 'deluxe', 'suite']` check. */
  function ParseRoomType(s: string): (r: Option<RoomType>)
    ensures r.Some? <==> s == "standard" || s == "deluxe" || s == "suite"
    ensures r.Some? ==> RoomTypeName(r.value) == s
  {
    if s == "standard" then Some(Standard)
    else if s == "deluxe" then Some(Deluxe)
    else if s == "suite" then Some(Suite)
    else None
  }

  lemma ParseRoomTypeName(t: RoomType)
    ensures ParseRoomType(RoomTypeName(t)) == Some(t)
  {
  }

  /** `toLowerCase` restricted to ASCII letters. */
  function LowerChar(c: char): char {
    if 'A' <= c <= 'Z' then (c as int + 32) as char else c
  }

  /** No upper-case ASCII letter occurs in `s`. */
  predicate IsLower(s: string) {
    forall i :: 0 <= i < |s| ==> !('A' <= s[i] <= 'Z')
  }

  function ToLower(s: string): (r: string)
    ensures |r| == |s|
    ensures IsLower(r)
    ensures IsLower(s) ==> r == s
  {
    seq(|s|, i requires 0 <= i < |s| => LowerChar(s[i]))
  }

  /**
   * Stored type names are lower case, so lower-casing a requested name that
   * differs from one only in ASCII case yields that name.
   */
  lemma ToLowerRoomTypeName(t: RoomType, requested: string)
    requires |requested| == |RoomTypeName(t)|
    requires forall i :: 0 <= i < |requested| ==> LowerChar(requested[i]) == RoomTypeName(t)[i]
    ensures ToLower(RoomTypeName(t)) == RoomTypeName(t)
    ensures ToLower(requested) == RoomTypeName(t)
  {
  }

  /** JavaScript truthiness of an optional string field: absent and "" are falsy. */
  predicate Truthy(s: Option<string>) {
    s.Some? && s.value != ""
  }
}
