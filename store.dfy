/** The three database tables the serverless handlers in api/ read and write
    (rooms, guests, bookings), the replies they send, and the query-string
    helpers they share: id parameters and `skip`/`limit` paging. The hosted
    database is replaced by a `Database` object holding one map per table,
    keyed by row id. */
module Store {
  import opened Common

  // ---------------------------------------------------------------------------
  // Rows

  /** The `status` column of a booking. */
  datatype Status = Booked | CheckedIn | CheckedOut | Cancelled

  /** The status a `status` text stands for, if any. */
  function ParseStatus(name: string): Option<Status> {
    if name == "booked" then Some(Booked)
    else if name == "checked_in" then Some(CheckedIn)
    else if name == "checked_out" then Some(CheckedOut)
    else if name == "cancelled" then Some(Cancelled)
    else None
  }

  /** The text stored in the `status` column; reading it back gives the status. */
  function StatusName(s: Status): (name: string)
    ensures ParseStatus(name) == Some(s)
  {
    match s
    case Booked => "booked"
    case CheckedIn => "checked_in"
    case CheckedOut => "checked_out"
    case Cancelled => "cancelled"
  }

  /** A row of `rooms`; the price is kept in whole currency units. */
  datatype Room = Room(roomNumber: string, roomType: string, capacity: int,
                       pricePerNight: int, isAvailable: bool, createdAt: int)

  /** A row of `guests`. */
  datatype Guest = Guest(name: string, email: string, phone: string,
                         address: Option<string>, idProof: Option<string>, createdAt: int)

  /** A row of `bookings`; dates are day numbers, timestamps milliseconds. */
  datatype Booking = Booking(guestId: int, roomId: int, checkInDate: int, checkOutDate: int,
                             totalAmount: int, status: Status,
                             actualCheckIn: Option<int>, actualCheckOut: Option<int>, createdAt: int)

  /** `bookings.guest_id` and `bookings.room_id` name existing rows: the
      foreign keys the handlers' embedded selects (`guest:guests(...)`,
      `room:rooms(...)`) rely on. */
  ghost predicate ReferencesValid(bookings: map<int, Booking>, guests: map<int, Guest>, rooms: map<int, Room>) {
    forall id :: id in bookings ==> bookings[id].guestId in guests && bookings[id].roomId in rooms
  }

  /** The in-memory stand-in for the three tables. Ids are handed out in
      increasing order, so a larger id is a newer row. */
  class Database {
    var rooms: map<int, Room>
    var guests: map<int, Guest>
    var bookings: map<int, Booking>
    var nextRoomId: int
    var nextGuestId: int
    var nextBookingId: int

    ghost predicate Valid()
      reads this
    {
      && 1 <= nextRoomId && 1 <= nextGuestId && 1 <= nextBookingId
      && (forall id :: id in rooms ==> 1 <= id < nextRoomId)
      && (forall id :: id in guests ==> 1 <= id < nextGuestId)
      && (forall id :: id in bookings ==> 1 <= id < nextBookingId)
      && ReferencesValid(bookings, guests, rooms)
    }

    constructor ()
      ensures Valid()
      ensures rooms == map[] && guests == map[] && bookings == map[]
      ensures nextRoomId == 1 && nextGuestId == 1 && nextBookingId == 1
    {
      rooms := map[];
      guests := map[];
      bookings := map[];
      nextRoomId := 1;
      nextGuestId := 1;
      nextBookingId := 1;
    }
  }

  /** `rooms.update({'is_available': flag}).eq('id', id)`: the one row, if it
      exists, gets the flag; every other row is untouched. */
  function SetAvailable(rooms: map<int, Room>, id: int, flag: bool): (r: map<int, Room>)
    ensures r.Keys == rooms.Keys
    ensures id in rooms ==> r[id] == rooms[id].(isAvailable := flag)
    ensures forall k :: k in rooms && k != id ==> r[k] == rooms[k]
  {
    if id in rooms then rooms[id := rooms[id].(isAvailable := flag)] else rooms
  }

  // ---------------------------------------------------------------------------
  // Replies

  /** The `error` text of a reply: a handler's own message, or `str(e)` of an
      exception the database client raised (whose wording is not modelled). */
  datatype ErrorText = Message(text: string) | DatabaseError

  /** The JSON body of a reply. */
  datatype Body =
    | NoBody                    // OPTIONS: `''`
    | Error(error: ErrorText)   // `{'error': ...}`
    | Notice(message: string)   // `{'message': ...}`
    | Row(id: int)              // one row, by id
    | Rows(ids: seq<int>)       // a list of rows, by id, in reply order

  datatype Reply = Reply(statusCode: int, body: Body)

  function Fail(code: int, text: string): Reply {
    Reply(code, Error(Message(text)))
  }

  /** The catch-all of every `handler`: any exception becomes a 500. */
  const InternalError: Reply := Fail(500, "Internal server error")
  const NotAllowed: Reply := Fail(405, "Method not allowed")
  const Preflight: Reply := Reply(200, NoBody)

  // ---------------------------------------------------------------------------
  // Query-string parameters

  type Params = map<string, string>

  /** An `id`-like parameter, read with `params.get(name)`. */
  datatype IdArg = Missing | Malformed | Id(value: int)

  /** `if not params.get(name)` rejects an absent or empty value; any other
      text is handed to the database, which fails on text that is not an
      integer. */
  function ReadId(params: Params, name: string): (a: IdArg)
    ensures a.Missing? <==> name !in params || params[name] == ""
    ensures a.Malformed? <==> name in params && params[name] != "" && ParseInt(params[name]).None?
    ensures a.Id? ==> ParseInt(params[name]) == Some(a.value)
  {
    if name !in params || params[name] == "" then Missing
    else match ParseInt(params[name])
      case None => Malformed
      case Some(n) => Id(n)
  }

  /** The rows of one reply: `.range(skip, skip + limit - 1)`. */
  datatype Window = Window(skip: nat, limit: nat)

  /** `int(params.get('skip', 0))` and `int(params.get('limit', 100))`. Text
      that is not an integer raises; a negative offset or count is refused by
      the database; both end in the handler's 500. */
  function ReadWindow(params: Params): (w: Option<Window>)
    ensures "skip" !in params && "limit" !in params ==> w == Some(Window(0, 100))
    ensures w.Some? ==>
      && ("skip" in params ==> ParseInt(params["skip"]) == Some(w.value.skip as int))
      && ("skip" !in params ==> w.value.skip == 0)
      && ("limit" in params ==> ParseInt(params["limit"]) == Some(w.value.limit as int))
      && ("limit" !in params ==> w.value.limit == 100)
    ensures w.None? <==>
      || ("skip" in params && (ParseInt(params["skip"]).None? || ParseInt(params["skip"]).value < 0))
      || ("limit" in params && (ParseInt(params["limit"]).None? || ParseInt(params["limit"]).value < 0))
  {
    var skip := if "skip" in params then ParseInt(params["skip"]) else Some(0);
    var limit := if "limit" in params then ParseInt(params["limit"]) else Some(100);
    if skip.Some? && limit.Some? && skip.value >= 0 && limit.value >= 0 then Some(Window(skip.value, limit.value))
    else None
  }

  /** The rows `range(skip, skip + limit - 1)` keeps of an ordered result: the
      inclusive range starting at `skip`, at most `limit` long. */
  function Page<T>(rows: seq<T>, w: Window): (page: seq<T>)
    ensures |page| <= w.limit
    ensures |page| == if w.skip >= |rows| then 0 else Min(w.limit, |rows| - w.skip)
    ensures forall i :: 0 <= i < |page| ==> page[i] == rows[w.skip + i]
  {
    if w.skip >= |rows| then [] else rows[w.skip..Min(|rows|, w.skip + w.limit)]
  }

  /** Consecutive pages tile the result: reading `a` rows and then `b` rows is
      reading `a + b` rows. */
  lemma PagesAdjoin<T>(rows: seq<T>, skip: nat, a: nat, b: nat)
    ensures Page(rows, Window(skip, a)) + Page(rows, Window(skip + a, b)) == Page(rows, Window(skip, a + b))
  {
    var p, q, r := Page(rows, Window(skip, a)), Page(rows, Window(skip + a, b)), Page(rows, Window(skip, a + b));
    assert |p + q| == |r|;
    forall i | 0 <= i < |r| ensures (p + q)[i] == r[i] {
      if i < |p| {
        assert (p + q)[i] == p[i];
      } else {
        assert (p + q)[i] == q[i - |p|];
      }
    }
  }

  /** `.order('created_at', desc=True)` over the rows of a table that pass a
      filter, for ids below `hi`: the ids of the matching rows, newest (largest id)
      first. */
  function NewestFirst<T>(table: map<int, T>, keep: T -> bool, hi: int): (ids: seq<int>)
    ensures forall i :: 0 <= i < |ids| ==> ids[i] in table && keep(table[ids[i]]) && 1 <= ids[i] < hi
    ensures forall id :: id in table && keep(table[id]) && 1 <= id < hi ==> id in ids
    ensures forall i, j :: 0 <= i < j < |ids| ==> ids[i] > ids[j]
    decreases hi
  {
    if hi <= 1 then []
    else
      var rest := NewestFirst(table, keep, hi - 1);
      if hi - 1 in table && keep(table[hi - 1]) then [hi - 1] + rest else rest
  }
}
