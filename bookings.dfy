/** The bookings endpoint (api/bookings.py): the booking schema, the lifecycle
    `booked -> checked_in -> checked_out` with `booked -> cancelled` on the side,
    admission of a new booking, its date-conflict scan, the free-form update and
    the method dispatch of `handler`. Each handler is a method over the
    `Database` that answers with a `Reply`. */
module BookingsApi {
  import opened Common
  import opened Store

  // ---------------------------------------------------------------------------
  // Request bodies and the schema

  /** A JSON request body, key by key (`None` when the key is absent; for the
      two nullable timestamps `Some(None)` is a JSON null); `otherKeys` says
      whether it carries a key that is not a booking column. */
  datatype BookingFields = BookingFields(
    guestId: Option<int>, roomId: Option<int>,
    checkInDate: Option<int>, checkOutDate: Option<int>,
    totalAmount: Option<int>, status: Option<Status>,
    actualCheckIn: Option<Option<int>>, actualCheckOut: Option<Option<int>>,
    otherKeys: bool)

  /** The body `{}`: what an absent request body parses to. */
  const EmptyFields: BookingFields := BookingFields(None, None, None, None, None, None, None, None, false)

  /** The fields `BookingSchema` accepts. */
  datatype NewBooking = NewBooking(guestId: int, roomId: int, checkInDate: int, checkOutDate: int, totalAmount: int)

  /** `booking_schema.load(data)`: all five fields present, both ids at least
      1, the amount not negative, and no key outside the schema (an unknown key,
      `status` and the two timestamps included, is a validation error). The two
      dates are not compared with each other. */
  function LoadBooking(f: BookingFields): (r: Option<NewBooking>)
    ensures r.Some? ==> r.value.guestId >= 1 && r.value.roomId >= 1 && r.value.totalAmount >= 0
    ensures r.Some? ==>
      && f.guestId == Some(r.value.guestId) && f.roomId == Some(r.value.roomId)
      && f.checkInDate == Some(r.value.checkInDate) && f.checkOutDate == Some(r.value.checkOutDate)
      && f.totalAmount == Some(r.value.totalAmount)
    ensures r.Some? ==> f.status.None? && f.actualCheckIn.None? && f.actualCheckOut.None? && !f.otherKeys
    ensures (&& f.guestId.Some? && f.guestId.value >= 1 && f.roomId.Some? && f.roomId.value >= 1
             && f.checkInDate.Some? && f.checkOutDate.Some?
             && f.totalAmount.Some? && f.totalAmount.value >= 0
             && f.status.None? && f.actualCheckIn.None? && f.actualCheckOut.None? && !f.otherKeys) ==> r.Some?
  {
    if && f.guestId.Some? && f.guestId.value >= 1 && f.roomId.Some? && f.roomId.value >= 1
       && f.checkInDate.Some? && f.checkOutDate.Some?
       && f.totalAmount.Some? && f.totalAmount.value >= 0
       && f.status.None? && f.actualCheckIn.None? && f.actualCheckOut.None? && !f.otherKeys
    then Some(NewBooking(f.guestId.value, f.roomId.value, f.checkInDate.value, f.checkOutDate.value, f.totalAmount.value))
    else None
  }

  // ---------------------------------------------------------------------------
  // The lifecycle

  datatype Action = CheckInAction | CheckOutAction | CancelAction

  /** How far along its lifecycle a booking is. */
  function Stage(s: Status): nat {
    match s
    case Booked => 0
    case CheckedIn => 1
    case CheckedOut => 2
    case Cancelled => 2
  }

  /** The status an action leaves behind, or `None` when its handler refuses
      it: check-in only from `booked`, check-out only from `checked_in`, cancel
      only from `booked`. Every permitted action moves the booking forward, and
      `checked_out` and `cancelled` admit none. */
  function Next(s: Status, a: Action): (r: Option<Status>)
    ensures r.Some? ==> Stage(r.value) > Stage(s)
    ensures Stage(s) == 2 ==> r.None?
  {
    match a
    case CheckInAction => if s == Booked then Some(CheckedIn) else None
    case CheckOutAction => if s == CheckedIn then Some(CheckedOut) else None
    case CancelAction => if s == Booked then Some(Cancelled) else None
  }

  /** The message cancel refuses a status with; none exactly when it permits it. */
  function CancelRefusal(s: Status): (m: Option<string>)
    ensures m.None? <==> Next(s, CancelAction).Some?
  {
    match s
    case CheckedIn => Some("Cannot cancel a booking for a checked-in guest")
    case Cancelled => Some("Booking is already cancelled")
    case CheckedOut => Some("Cannot cancel a completed booking")
    case Booked => None
  }

  /** A run of lifecycle requests against one booking: the final status and
      how many of them were carried out. */
  function Run(s: Status, acts: seq<Action>): (Status, nat)
    decreases |acts|
  {
    if acts == [] then (s, 0)
    else match Next(s, acts[0])
      case None => Run(s, acts[1..])
      case Some(t) => var (u, n) := Run(t, acts[1..]); (u, n + 1)
  }

  /** However the requests are ordered, a booking goes through at most two
      transitions, and every one of them takes it further along. */
  lemma {:induction false} RunAdvances(s: Status, acts: seq<Action>)
    ensures Stage(s) + Run(s, acts).1 <= Stage(Run(s, acts).0) <= 2
    decreases |acts|
  {
    if acts != [] {
      match Next(s, acts[0])
      case None => RunAdvances(s, acts[1..]);
      case Some(t) => RunAdvances(t, acts[1..]);
    }
  }

  // ---------------------------------------------------------------------------
  // Date conflicts

  /** `check_in <= conflict_out and check_out >= conflict_in`. */
  predicate Overlaps(checkIn: int, checkOut: int, otherIn: int, otherOut: int) {
    checkIn <= otherOut && checkOut >= otherIn
  }

  /** An existing booking the new stay collides with: same room, still active
      (`booked` or `checked_in`), overlapping dates. */
  predicate Blocks(b: Booking, roomId: int, checkIn: int, checkOut: int) {
    && b.roomId == roomId
    && (b.status == Booked || b.status == CheckedIn)
    && Overlaps(checkIn, checkOut, b.checkInDate, b.checkOutDate)
  }

  ghost predicate HasConflict(bookings: map<int, Booking>, roomId: int, checkIn: int, checkOut: int) {
    exists id :: id in bookings && Blocks(bookings[id], roomId, checkIn, checkOut)
  }

  predicate InStay(day: int, checkIn: int, checkOut: int) {
    checkIn <= day <= checkOut
  }

  /** For well-formed stays, the overlap test holds exactly when some day lies in
      both stays, both ends included: a stay that starts on the day another
      ends conflicts with it. */
  lemma OverlapsIffSharedDay(checkIn: int, checkOut: int, otherIn: int, otherOut: int)
    requires checkIn <= checkOut && otherIn <= otherOut
    ensures Overlaps(checkIn, checkOut, otherIn, otherOut) <==>
      exists day :: InStay(day, checkIn, checkOut) && InStay(day, otherIn, otherOut)
  {
    if Overlaps(checkIn, checkOut, otherIn, otherOut) {
      var day := if checkIn <= otherIn then otherIn else checkIn;
      assert InStay(day, checkIn, checkOut) && InStay(day, otherIn, otherOut);
    }
  }

  /** The `for conflict in conflicts.data` loop over the active bookings of the
      room, returning at the first overlap; the rows are visited in id order. */
  method FindConflict(bookings: map<int, Booking>, next: int, roomId: int, checkIn: int, checkOut: int)
    returns (found: bool)
    requires forall id :: id in bookings ==> 1 <= id < next
    ensures found <==> HasConflict(bookings, roomId, checkIn, checkOut)
  {
    var id := 1;
    while id < next
      invariant forall k :: k in bookings && k < id ==> !Blocks(bookings[k], roomId, checkIn, checkOut)
      decreases next - id
    {
      if id in bookings && Blocks(bookings[id], roomId, checkIn, checkOut) {
        return true;
      }
      id := id + 1;
    }
    return false;
  }

  // ---------------------------------------------------------------------------
  // Handlers

  /** The row a successful create inserts. */
  function Inserted(nb: NewBooking, now: int): Booking {
    Booking(nb.guestId, nb.roomId, nb.checkInDate, nb.checkOutDate, nb.totalAmount, Booked, None, None, now)
  }

  /** What `handle_create_booking` does: validation, then the guest, the room,
      the room's availability and the conflict scan, the first failure
      answering with nothing written; otherwise one `booked` row is inserted
      and the room is marked unavailable. */
  twostate predicate CreateDone(db: Database, body: BookingFields, now: int, reply: Reply)
    reads db
  {
    match LoadBooking(body)
    case None => reply == Fail(400, "Validation failed") && unchanged(db)
    case Some(nb) =>
      if nb.guestId !in old(db.guests) then reply == Fail(400, "Guest not found") && unchanged(db)
      else if nb.roomId !in old(db.rooms) then reply == Fail(400, "Room not found") && unchanged(db)
      else if !old(db.rooms)[nb.roomId].isAvailable then reply == Fail(400, "Room is not available") && unchanged(db)
      else if HasConflict(old(db.bookings), nb.roomId, nb.checkInDate, nb.checkOutDate) then
        reply == Fail(400, "Room is already booked for these dates") && unchanged(db)
      else
        && reply == Reply(201, Row(old(db.nextBookingId)))
        && db.bookings == old(db.bookings)[old(db.nextBookingId) := Inserted(nb, now)]
        && db.rooms == SetAvailable(old(db.rooms), nb.roomId, false)
        && db.guests == old(db.guests)
        && db.nextBookingId == old(db.nextBookingId) + 1
        && db.nextRoomId == old(db.nextRoomId) && db.nextGuestId == old(db.nextGuestId)
  }

  /** `handle_create_booking`. */
  method HandleCreate(db: Database, body: BookingFields, now: int) returns (reply: Reply)
    requires db.Valid()
    modifies db
    ensures db.Valid()
    ensures CreateDone(db, body, now, reply)
  {
    var loaded := LoadBooking(body);
    if loaded.None? {
      return Fail(400, "Validation failed");
    }
    var nb := loaded.value;
    if nb.guestId !in db.guests {
      return Fail(400, "Guest not found");
    }
    if nb.roomId !in db.rooms {
      return Fail(400, "Room not found");
    }
    if !db.rooms[nb.roomId].isAvailable {
      return Fail(400, "Room is not available");
    }
    var conflict := FindConflict(db.bookings, db.nextBookingId, nb.roomId, nb.checkInDate, nb.checkOutDate);
    if conflict {
      return Fail(400, "Room is already booked for these dates");
    }
    var id := db.nextBookingId;
    db.bookings := db.bookings[id := Inserted(nb, now)];
    db.nextBookingId := id + 1;
    db.rooms := SetAvailable(db.rooms, nb.roomId, false);
    reply := Reply(201, Row(id));
  }

  /** What `handle_check_in` does: a `booked` booking becomes `checked_in` and
      records the time; an absent id is 400, an unknown one 404, any other
      status 400. */
  twostate predicate CheckInDone(db: Database, params: Params, now: int, reply: Reply)
    reads db
  {
    match ReadId(params, "id")
    case Missing => reply == Fail(400, "Booking ID is required") && unchanged(db)
    case Malformed => reply == InternalError && unchanged(db)
    case Id(id) =>
      if id !in old(db.bookings) then reply == Fail(404, "Booking not found") && unchanged(db)
      else
        var b := old(db.bookings)[id];
        match Next(b.status, CheckInAction)
        case None => reply == Fail(400, "Only booked reservations can be checked in") && unchanged(db)
        case Some(s) =>
          && reply == Reply(200, Notice("Guest checked in successfully"))
          && db.bookings == old(db.bookings)[id := b.(status := s, actualCheckIn := Some(now))]
          && db.rooms == old(db.rooms) && db.guests == old(db.guests)
          && db.nextRoomId == old(db.nextRoomId) && db.nextGuestId == old(db.nextGuestId)
          && db.nextBookingId == old(db.nextBookingId)
  }

  /** `handle_check_in`. */
  method HandleCheckIn(db: Database, params: Params, now: int) returns (reply: Reply)
    requires db.Valid()
    modifies db
    ensures db.Valid()
    ensures CheckInDone(db, params, now, reply)
  {
    match ReadId(params, "id")
    case Missing =>
      reply := Fail(400, "Booking ID is required");
    case Malformed =>
      reply := InternalError;
    case Id(id) =>
      if id !in db.bookings {
        return Fail(404, "Booking not found");
      }
      var b := db.bookings[id];
      if b.status != Booked {
        return Fail(400, "Only booked reservations can be checked in");
      }
      db.bookings := db.bookings[id := b.(status := CheckedIn, actualCheckIn := Some(now))];
      reply := Reply(200, Notice("Guest checked in successfully"));
  }

  /** What `handle_check_out` does: a `checked_in` booking becomes
      `checked_out`, records the time and frees its room; any other status is
      400 with nothing changed. */
  twostate predicate CheckOutDone(db: Database, params: Params, now: int, reply: Reply)
    reads db
  {
    match ReadId(params, "id")
    case Missing => reply == Fail(400, "Booking ID is required") && unchanged(db)
    case Malformed => reply == InternalError && unchanged(db)
    case Id(id) =>
      if id !in old(db.bookings) then reply == Fail(404, "Booking not found") && unchanged(db)
      else
        var b := old(db.bookings)[id];
        match Next(b.status, CheckOutAction)
        case None => reply == Fail(400, "Only checked-in guests can be checked out") && unchanged(db)
        case Some(s) =>
          && reply == Reply(200, Notice("Guest checked out successfully"))
          && db.bookings == old(db.bookings)[id := b.(status := s, actualCheckOut := Some(now))]
          && db.rooms == SetAvailable(old(db.rooms), b.roomId, true)
          && db.guests == old(db.guests)
          && db.nextRoomId == old(db.nextRoomId) && db.nextGuestId == old(db.nextGuestId)
          && db.nextBookingId == old(db.nextBookingId)
  }

  /** `handle_check_out`. */
  method HandleCheckOut(db: Database, params: Params, now: int) returns (reply: Reply)
    requires db.Valid()
    modifies db
    ensures db.Valid()
    ensures CheckOutDone(db, params, now, reply)
  {
    match ReadId(params, "id")
    case Missing =>
      reply := Fail(400, "Booking ID is required");
    case Malformed =>
      reply := InternalError;
    case Id(id) =>
      if id !in db.bookings {
        return Fail(404, "Booking not found");
      }
      var b := db.bookings[id];
      if b.status != CheckedIn {
        return Fail(400, "Only checked-in guests can be checked out");
      }
      db.bookings := db.bookings[id := b.(status := CheckedOut, actualCheckOut := Some(now))];
      db.rooms := SetAvailable(db.rooms, b.roomId, true);
      reply := Reply(200, Notice("Guest checked out successfully"));
  }

  /** What `handle_cancel_booking` does: a `booked` booking becomes
      `cancelled` and frees its room; each other status is refused with its own
      message. */
  twostate predicate CancelDone(db: Database, params: Params, reply: Reply)
    reads db
  {
    match ReadId(params, "id")
    case Missing => reply == Fail(400, "Booking ID is required") && unchanged(db)
    case Malformed => reply == InternalError && unchanged(db)
    case Id(id) =>
      if id !in old(db.bookings) then reply == Fail(404, "Booking not found") && unchanged(db)
      else
        var b := old(db.bookings)[id];
        match CancelRefusal(b.status)
        case Some(m) => reply == Fail(400, m) && unchanged(db)
        case None =>
          && reply == Reply(200, Notice("Booking cancelled successfully"))
          && db.bookings == old(db.bookings)[id := b.(status := Cancelled)]
          && db.rooms == SetAvailable(old(db.rooms), b.roomId, true)
          && db.guests == old(db.guests)
          && db.nextRoomId == old(db.nextRoomId) && db.nextGuestId == old(db.nextGuestId)
          && db.nextBookingId == old(db.nextBookingId)
  }

  /** `handle_cancel_booking`. */
  method HandleCancel(db: Database, params: Params) returns (reply: Reply)
    requires db.Valid()
    modifies db
    ensures db.Valid()
    ensures CancelDone(db, params, reply)
  {
    match ReadId(params, "id")
    case Missing =>
      reply := Fail(400, "Booking ID is required");
    case Malformed =>
      reply := InternalError;
    case Id(id) =>
      if id !in db.bookings {
        return Fail(404, "Booking not found");
      }
      var b := db.bookings[id];
      if b.status == CheckedIn {
        return Fail(400, "Cannot cancel a booking for a checked-in guest");
      }
      if b.status == Cancelled {
        return Fail(400, "Booking is already cancelled");
      }
      if b.status == CheckedOut {
        return Fail(400, "Cannot cancel a completed booking");
      }
      db.bookings := db.bookings[id := b.(status := Cancelled)];
      db.rooms := SetAvailable(db.rooms, b.roomId, true);
      reply := Reply(200, Notice("Booking cancelled successfully"));
  }

  /** `update(data)` on one row: every column the body names takes the body's
      value, `status` and the check-in and check-out timestamps included, so an
      update can move a booking to any status whatever the lifecycle allows. */
  function Patch(b: Booking, f: BookingFields): (r: Booking)
    ensures f.guestId.Some? ==> r.guestId == f.guestId.value
    ensures f.guestId.None? ==> r.guestId == b.guestId
    ensures f.roomId.Some? ==> r.roomId == f.roomId.value
    ensures f.roomId.None? ==> r.roomId == b.roomId
    ensures f.checkInDate.Some? ==> r.checkInDate == f.checkInDate.value
    ensures f.checkInDate.None? ==> r.checkInDate == b.checkInDate
    ensures f.checkOutDate.Some? ==> r.checkOutDate == f.checkOutDate.value
    ensures f.checkOutDate.None? ==> r.checkOutDate == b.checkOutDate
    ensures f.totalAmount.Some? ==> r.totalAmount == f.totalAmount.value
    ensures f.totalAmount.None? ==> r.totalAmount == b.totalAmount
    ensures f.status.Some? ==> r.status == f.status.value
    ensures f.status.None? ==> r.status == b.status
    ensures f.actualCheckIn.Some? ==> r.actualCheckIn == f.actualCheckIn.value
    ensures f.actualCheckIn.None? ==> r.actualCheckIn == b.actualCheckIn
    ensures f.actualCheckOut.Some? ==> r.actualCheckOut == f.actualCheckOut.value
    ensures f.actualCheckOut.None? ==> r.actualCheckOut == b.actualCheckOut
    ensures r.createdAt == b.createdAt
    ensures f == EmptyFields ==> r == b
  {
    b.(guestId := f.guestId.GetOr(b.guestId), roomId := f.roomId.GetOr(b.roomId),
       checkInDate := f.checkInDate.GetOr(b.checkInDate), checkOutDate := f.checkOutDate.GetOr(b.checkOutDate),
       totalAmount := f.totalAmount.GetOr(b.totalAmount), status := f.status.GetOr(b.status),
       actualCheckIn := f.actualCheckIn.GetOr(b.actualCheckIn), actualCheckOut := f.actualCheckOut.GetOr(b.actualCheckOut))
  }

  /** Sending the same update twice leaves the row as sending it once. */
  lemma PatchIdempotent(b: Booking, f: BookingFields)
    ensures Patch(Patch(b, f), f) == Patch(b, f)
  {
  }

  /** What `handle_update_booking` does: no validation and no lifecycle guard.
      A key that is not a column, or a patched reference to a missing guest or
      room, makes the database raise (the handler's 500); an id matching no row
      is 404. */
  twostate predicate UpdateDone(db: Database, params: Params, body: BookingFields, reply: Reply)
    reads db
  {
    match ReadId(params, "id")
    case Missing => reply == Fail(400, "Booking ID is required") && unchanged(db)
    case Malformed => reply == InternalError && unchanged(db)
    case Id(id) =>
      if body.otherKeys then reply == InternalError && unchanged(db)
      else if id !in old(db.bookings) then reply == Fail(404, "Booking not found") && unchanged(db)
      else
        var b := Patch(old(db.bookings)[id], body);
        if b.guestId !in old(db.guests) || b.roomId !in old(db.rooms) then reply == InternalError && unchanged(db)
        else
          && reply == Reply(200, Row(id))
          && db.bookings == old(db.bookings)[id := b]
          && db.rooms == old(db.rooms) && db.guests == old(db.guests)
          && db.nextRoomId == old(db.nextRoomId) && db.nextGuestId == old(db.nextGuestId)
          && db.nextBookingId == old(db.nextBookingId)
  }

  /** `handle_update_booking`. */
  method HandleUpdate(db: Database, params: Params, body: BookingFields) returns (reply: Reply)
    requires db.Valid()
    modifies db
    ensures db.Valid()
    ensures UpdateDone(db, params, body, reply)
  {
    match ReadId(params, "id")
    case Missing =>
      reply := Fail(400, "Booking ID is required");
    case Malformed =>
      reply := InternalError;
    case Id(id) =>
      if body.otherKeys {
        return InternalError;
      }
      if id !in db.bookings {
        return Fail(404, "Booking not found");
      }
      var b := Patch(db.bookings[id], body);
      if b.guestId !in db.guests || b.roomId !in db.rooms {
        return InternalError;
      }
      db.bookings := db.bookings[id := b];
      reply := Reply(200, Row(id));
  }

  // ---------------------------------------------------------------------------
  // Listing

  /** The filters of `handle_get_bookings`; a filter is off when its
      parameter is absent or empty. */
  datatype BookingQuery = BookingQuery(status: Option<string>, guestId: Option<int>, roomId: Option<int>)

  /** `int(guest_id)` and `int(room_id)` raise on text that is not an
      integer, which ends in the handler's 500. */
  function ReadBookingQuery(params: Params): (q: Option<BookingQuery>)
    ensures q.Some? ==> (q.value.status.Some? <==> "status" in params && params["status"] != "")
    ensures q.Some? ==> (q.value.guestId.Some? <==> "guest_id" in params && params["guest_id"] != "")
    ensures q.Some? ==> (q.value.roomId.Some? <==> "room_id" in params && params["room_id"] != "")
    ensures q.None? <==> ReadId(params, "guest_id").Malformed? || ReadId(params, "room_id").Malformed?
  {
    var status := if "status" in params && params["status"] != "" then Some(params["status"]) else None;
    var g, r := ReadId(params, "guest_id"), ReadId(params, "room_id");
    if g.Malformed? || r.Malformed? then None
    else Some(BookingQuery(status, IdFilter(g), IdFilter(r)))
  }

  /** A filter on a column, set when its parameter holds an id. */
  function IdFilter(a: IdArg): Option<int> {
    match a
    case Id(n) => Some(n)
    case _ => None
  }

  predicate Selected(b: Booking, q: BookingQuery) {
    && (q.status.None? || StatusName(b.status) == q.status.value)
    && (q.guestId.None? || b.guestId == q.guestId.value)
    && (q.roomId.None? || b.roomId == q.roomId.value)
  }

  /** The filter of a query, as the row test `NewestFirst` applies. */
  function BookingFilter(q: BookingQuery): Booking -> bool {
    b => Selected(b, q)
  }

  /** `handle_get_bookings`: one page of the matching bookings, newest first.
      The page is the window's slice of the full, complete and newest-first
      list of matching ids. */
  function ListBookings(db: Database, params: Params): (reply: Reply)
    reads db
    ensures reply.statusCode == 200 <==> ReadWindow(params).Some? && ReadBookingQuery(params).Some?
    ensures reply.statusCode != 200 ==> reply == InternalError
    ensures reply.statusCode == 200 ==>
      reply.body == Rows(Page(NewestFirst(db.bookings, BookingFilter(ReadBookingQuery(params).value), db.nextBookingId),
                              ReadWindow(params).value))
    ensures reply.statusCode == 200 ==>
      && |reply.body.ids| <= ReadWindow(params).value.limit
      && (forall i :: 0 <= i < |reply.body.ids| ==>
            reply.body.ids[i] in db.bookings && Selected(db.bookings[reply.body.ids[i]], ReadBookingQuery(params).value))
      && (forall i, j :: 0 <= i < j < |reply.body.ids| ==> reply.body.ids[i] > reply.body.ids[j])
  {
    var w, q := ReadWindow(params), ReadBookingQuery(params);
    if w.Some? && q.Some? then Reply(200, Rows(Page(NewestFirst(db.bookings, BookingFilter(q.value), db.nextBookingId), w.value)))
    else InternalError
  }

  // ---------------------------------------------------------------------------
  // Dispatch

  datatype Route = OptionsRoute | ListRoute | CreateRoute | CheckInRoute | CheckOutRoute
                 | UpdateRoute | CancelRoute | UnknownRoute

  /** The branches of `handler`: OPTIONS answers at once, PUT goes by its
      `action` parameter, anything but GET, POST, PUT and DELETE is refused. */
  function RouteOf(verb: string, params: Params): (r: Route)
    ensures r == OptionsRoute <==> verb == "OPTIONS"
    ensures r == UnknownRoute <==> verb !in {"OPTIONS", "GET", "POST", "PUT", "DELETE"}
    ensures r in {CheckInRoute, CheckOutRoute, UpdateRoute} <==> verb == "PUT"
    ensures r == CheckInRoute <==> verb == "PUT" && "action" in params && params["action"] == "checkin"
    ensures r == CheckOutRoute <==> verb == "PUT" && "action" in params && params["action"] == "checkout"
  {
    if verb == "OPTIONS" then OptionsRoute
    else if verb == "GET" then ListRoute
    else if verb == "POST" then CreateRoute
    else if verb == "PUT" then
      if "action" in params && params["action"] == "checkin" then CheckInRoute
      else if "action" in params && params["action"] == "checkout" then CheckOutRoute
      else UpdateRoute
    else if verb == "DELETE" then CancelRoute
    else UnknownRoute
  }

  /** `handler(event, context)`. `body` is the parsed request body, `None` when
      it is not valid JSON (`json.loads` raises); it is read only by the
      routes that parse it. */
  method Handle(db: Database, verb: string, params: Params, body: Option<BookingFields>, now: int)
    returns (reply: Reply)
    requires db.Valid()
    modifies db
    ensures db.Valid()
    ensures RouteOf(verb, params) == OptionsRoute ==> reply == Preflight && unchanged(db)
    ensures RouteOf(verb, params) == UnknownRoute ==> reply == NotAllowed && unchanged(db)
    ensures RouteOf(verb, params) == ListRoute ==> reply == ListBookings(db, params) && unchanged(db)
    ensures RouteOf(verb, params) in {CreateRoute, UpdateRoute} && body.None? ==>
      reply == InternalError && unchanged(db)
    ensures RouteOf(verb, params) == CreateRoute && body.Some? ==> CreateDone(db, body.value, now, reply)
    ensures RouteOf(verb, params) == CheckInRoute ==> CheckInDone(db, params, now, reply)
    ensures RouteOf(verb, params) == CheckOutRoute ==> CheckOutDone(db, params, now, reply)
    ensures RouteOf(verb, params) == UpdateRoute && body.Some? ==> UpdateDone(db, params, body.value, reply)
    ensures RouteOf(verb, params) == CancelRoute ==> CancelDone(db, params, reply)
    ensures reply.statusCode in {200, 201, 400, 404, 405, 500}
  {
    match RouteOf(verb, params)
    case OptionsRoute => reply := Preflight;
    case UnknownRoute => reply := NotAllowed;
    case ListRoute => reply := ListBookings(db, params);
    case CreateRoute =>
      if body.None? {
        reply := InternalError;
      } else {
        reply := HandleCreate(db, body.value, now);
      }
    case CheckInRoute => reply := HandleCheckIn(db, params, now);
    case CheckOutRoute => reply := HandleCheckOut(db, params, now);
    case UpdateRoute =>
      if body.None? {
        reply := InternalError;
      } else {
        reply := HandleUpdate(db, params, body.value);
      }
    case CancelRoute => reply := HandleCancel(db, params);
  }
}
