/** The rooms endpoint (api/rooms.py): the room schema, creation with a
    unique room number, the unvalidated update, the `available` and
    `room_type` filters with paging, and the method dispatch of `handler`. */
module RoomsApi {
  import opened Common
  import opened Store

  // ---------------------------------------------------------------------------
  // Request bodies and the schema

  /** A JSON request body, key by key (`None` when the key is absent);
      `otherKeys` says whether it carries a key that is not a room column. */
  datatype RoomFields = RoomFields(
    roomNumber: Option<string>, roomType: Option<string>,
    capacity: Option<int>, pricePerNight: Option<int>,
    isAvailable: Option<bool>, otherKeys: bool)

  const NoRoomFields: RoomFields := RoomFields(None, None, None, None, None, false)

  /** `validate.OneOf(['single', 'double', 'suite', 'dorm'])`. */
  const RoomTypes: set<string> := {"single", "double", "suite", "dorm"}

  datatype NewRoom = NewRoom(roomNumber: string, roomType: string, capacity: int, pricePerNight: int)

  /** `room_schema.load(data)`: all four fields present, a known room type, a
      capacity of at least 1, a price that is not negative, and no key outside
      the schema (`is_available` included). */
  function LoadRoom(f: RoomFields): (r: Option<NewRoom>)
    ensures r.Some? ==> r.value.roomType in RoomTypes && r.value.capacity >= 1 && r.value.pricePerNight >= 0
    ensures r.Some? ==>
      && f.roomNumber == Some(r.value.roomNumber) && f.roomType == Some(r.value.roomType)
      && f.capacity == Some(r.value.capacity) && f.pricePerNight == Some(r.value.pricePerNight)
      && f.isAvailable.None? && !f.otherKeys
    ensures (&& f.roomNumber.Some? && f.roomType.Some? && f.roomType.value in RoomTypes
             && f.capacity.Some? && f.capacity.value >= 1
             && f.pricePerNight.Some? && f.pricePerNight.value >= 0
             && f.isAvailable.None? && !f.otherKeys) ==> r.Some?
  {
    if && f.roomNumber.Some? && f.roomType.Some? && f.roomType.value in RoomTypes
       && f.capacity.Some? && f.capacity.value >= 1
       && f.pricePerNight.Some? && f.pricePerNight.value >= 0
       && f.isAvailable.None? && !f.otherKeys
    then Some(NewRoom(f.roomNumber.value, f.roomType.value, f.capacity.value, f.pricePerNight.value))
    else None
  }

  // ---------------------------------------------------------------------------
  // Handlers

  /** Some room already carries this number. */
  predicate NumberTaken(rooms: map<int, Room>, roomNumber: string) {
    exists id :: id in rooms && rooms[id].roomNumber == roomNumber
  }

  /** No two rooms share a number. */
  ghost predicate RoomNumbersUnique(rooms: map<int, Room>) {
    forall a, b :: a in rooms && b in rooms && rooms[a].roomNumber == rooms[b].roomNumber ==> a == b
  }

  /** What `handle_create_room` does: a valid body with an unused number
      becomes a new row, available from the start; a used number is 400 with
      the table untouched. */
  twostate predicate CreateDone(db: Database, body: RoomFields, now: int, reply: Reply)
    reads db
  {
    match LoadRoom(body)
    case None => reply == Fail(400, "Validation failed") && unchanged(db)
    case Some(nr) =>
      if NumberTaken(old(db.rooms), nr.roomNumber) then
        reply == Fail(400, "Room number already exists") && unchanged(db)
      else
        && reply == Reply(201, Row(old(db.nextRoomId)))
        && db.rooms == old(db.rooms)[old(db.nextRoomId) :=
             Room(nr.roomNumber, nr.roomType, nr.capacity, nr.pricePerNight, true, now)]
        && db.nextRoomId == old(db.nextRoomId) + 1
        && db.guests == old(db.guests) && db.bookings == old(db.bookings)
        && db.nextGuestId == old(db.nextGuestId) && db.nextBookingId == old(db.nextBookingId)
  }

  /** `handle_create_room`; creation keeps room numbers unique. */
  method HandleCreate(db: Database, body: RoomFields, now: int) returns (reply: Reply)
    requires db.Valid()
    modifies db
    ensures db.Valid()
    ensures CreateDone(db, body, now, reply)
    ensures RoomNumbersUnique(old(db.rooms)) ==> RoomNumbersUnique(db.rooms)
  {
    var loaded := LoadRoom(body);
    if loaded.None? {
      return Fail(400, "Validation failed");
    }
    var nr := loaded.value;
    if NumberTaken(db.rooms, nr.roomNumber) {
      return Fail(400, "Room number already exists");
    }
    var id := db.nextRoomId;
    db.rooms := db.rooms[id := Room(nr.roomNumber, nr.roomType, nr.capacity, nr.pricePerNight, true, now)];
    db.nextRoomId := id + 1;
    reply := Reply(201, Row(id));
  }

  /** `update(data)` on one row: every column the body names takes the body's
      value with no schema check, so an update can store a capacity of 0, a
      negative price or an unknown room type that creation refuses. */
  function PatchRoom(r: Room, f: RoomFields): (p: Room)
    ensures f.roomNumber.Some? ==> p.roomNumber == f.roomNumber.value
    ensures f.roomNumber.None? ==> p.roomNumber == r.roomNumber
    ensures f.roomType.Some? ==> p.roomType == f.roomType.value
    ensures f.roomType.None? ==> p.roomType == r.roomType
    ensures f.capacity.Some? ==> p.capacity == f.capacity.value
    ensures f.capacity.None? ==> p.capacity == r.capacity
    ensures f.pricePerNight.Some? ==> p.pricePerNight == f.pricePerNight.value
    ensures f.pricePerNight.None? ==> p.pricePerNight == r.pricePerNight
    ensures f.isAvailable.Some? ==> p.isAvailable == f.isAvailable.value
    ensures f.isAvailable.None? ==> p.isAvailable == r.isAvailable
    ensures p.createdAt == r.createdAt
    ensures f == NoRoomFields ==> p == r
  {
    r.(roomNumber := f.roomNumber.GetOr(r.roomNumber), roomType := f.roomType.GetOr(r.roomType),
       capacity := f.capacity.GetOr(r.capacity), pricePerNight := f.pricePerNight.GetOr(r.pricePerNight),
       isAvailable := f.isAvailable.GetOr(r.isAvailable))
  }

  /** Sending the same update twice leaves the row as sending it once. */
  lemma PatchRoomIdempotent(r: Room, f: RoomFields)
    ensures PatchRoom(PatchRoom(r, f), f) == PatchRoom(r, f)
  {
  }

  /** What `handle_update_room` does. Its own `try` turns a database exception
      (an id that is not an integer, a key that is not a column) into a 400
      carrying the exception text; an id matching no row is 404. */
  twostate predicate UpdateDone(db: Database, params: Params, body: RoomFields, reply: Reply)
    reads db
  {
    match ReadId(params, "id")
    case Missing => reply == Fail(400, "Room ID is required") && unchanged(db)
    case Malformed => reply == Reply(400, Error(DatabaseError)) && unchanged(db)
    case Id(id) =>
      if body.otherKeys then reply == Reply(400, Error(DatabaseError)) && unchanged(db)
      else if id !in old(db.rooms) then reply == Fail(404, "Room not found") && unchanged(db)
      else
        && reply == Reply(200, Row(id))
        && db.rooms == old(db.rooms)[id := PatchRoom(old(db.rooms)[id], body)]
        && db.guests == old(db.guests) && db.bookings == old(db.bookings)
        && db.nextRoomId == old(db.nextRoomId) && db.nextGuestId == old(db.nextGuestId)
        && db.nextBookingId == old(db.nextBookingId)
  }

  /** `handle_update_room`. */
  method HandleUpdate(db: Database, params: Params, body: RoomFields) returns (reply: Reply)
    requires db.Valid()
    modifies db
    ensures db.Valid()
    ensures UpdateDone(db, params, body, reply)
  {
    match ReadId(params, "id")
    case Missing =>
      reply := Fail(400, "Room ID is required");
    case Malformed =>
      reply := Reply(400, Error(DatabaseError));
    case Id(id) =>
      if body.otherKeys {
        return Reply(400, Error(DatabaseError));
      }
      if id !in db.rooms {
        return Fail(404, "Room not found");
      }
      db.rooms := db.rooms[id := PatchRoom(db.rooms[id], body)];
      reply := Reply(200, Row(id));
  }

  // ---------------------------------------------------------------------------
  // Listing

  /** The filters of `handle_get_rooms`. `available` is on whenever the
      parameter is present, even empty; `room_type` only when it is non-empty. */
  datatype RoomQuery = RoomQuery(available: Option<bool>, roomType: Option<string>)

  function ReadRoomQuery(params: Params): (q: RoomQuery)
    ensures q.available.Some? <==> "available" in params
    ensures "available" in params ==> (q.available.value <==> Lower(params["available"]) == "true")
    ensures q.roomType.Some? <==> "room_type" in params && params["room_type"] != ""
    ensures q.roomType.Some? ==> q.roomType.value == params["room_type"]
  {
    RoomQuery(
      if "available" in params then Some(Lower(params["available"]) == "true") else None,
      if "room_type" in params && params["room_type"] != "" then Some(params["room_type"]) else None)
  }

  predicate RoomSelected(r: Room, q: RoomQuery) {
    && (q.available.None? || r.isAvailable == q.available.value)
    && (q.roomType.None? || r.roomType == q.roomType.value)
  }

  /** The text `available` is compared with: `true` in any mix of letter
      cases, and nothing else. */
  lemma LowerIsTrue(s: string)
    ensures Lower(s) == "true" <==>
      |s| == 4 && s[0] in "tT" && s[1] in "rR" && s[2] in "uU" && s[3] in "eE"
  {
    if |s| == 4 && s[0] in "tT" && s[1] in "rR" && s[2] in "uU" && s[3] in "eE" {
      assert Lower(s)[0] == 't' && Lower(s)[1] == 'r' && Lower(s)[2] == 'u' && Lower(s)[3] == 'e';
      assert Lower(s) == "true";
    }
    if Lower(s) == "true" {
      assert LowerChar(s[0]) == 't' && LowerChar(s[1]) == 'r' && LowerChar(s[2]) == 'u' && LowerChar(s[3]) == 'e';
    }
  }

  /** The filter of a query, as the row test `NewestFirst` applies. */
  function RoomFilter(q: RoomQuery): Room -> bool {
    r => RoomSelected(r, q)
  }

  /** `handle_get_rooms`: one page of the matching rooms, newest first. The
      page is the window's slice of the full, complete and newest-first list
      of matching ids. */
  function ListRooms(db: Database, params: Params): (reply: Reply)
    reads db
    ensures reply.statusCode == 200 <==> ReadWindow(params).Some?
    ensures reply.statusCode != 200 ==> reply == InternalError
    ensures reply.statusCode == 200 ==>
      reply.body == Rows(Page(NewestFirst(db.rooms, RoomFilter(ReadRoomQuery(params)), db.nextRoomId),
                              ReadWindow(params).value))
    ensures reply.statusCode == 200 ==>
      && |reply.body.ids| <= ReadWindow(params).value.limit
      && (forall i :: 0 <= i < |reply.body.ids| ==>
            reply.body.ids[i] in db.rooms && RoomSelected(db.rooms[reply.body.ids[i]], ReadRoomQuery(params)))
      && (forall i, j :: 0 <= i < j < |reply.body.ids| ==> reply.body.ids[i] > reply.body.ids[j])
  {
    match ReadWindow(params)
    case Some(w) =>
      var q := ReadRoomQuery(params);
      Reply(200, Rows(Page(NewestFirst(db.rooms, RoomFilter(q), db.nextRoomId), w)))
    case None => InternalError
  }

  /** With `available` present and anything but `true` (in any case), only
      unavailable rooms are listed. */
  lemma OtherAvailableTextListsUnavailable(db: Database, params: Params)
    requires "available" in params && Lower(params["available"]) != "true"
    requires ListRooms(db, params).statusCode == 200
    ensures forall i :: 0 <= i < |ListRooms(db, params).body.ids| ==>
      !db.rooms[ListRooms(db, params).body.ids[i]].isAvailable
  {
    var ids := ListRooms(db, params).body.ids;
    forall i | 0 <= i < |ids| ensures !db.rooms[ids[i]].isAvailable {
      assert RoomSelected(db.rooms[ids[i]], ReadRoomQuery(params));
    }
  }

  // ---------------------------------------------------------------------------
  // Dispatch

  datatype Route = OptionsRoute | ListRoute | CreateRoute | UpdateRoute | UnknownRoute

  /** The branches of `handler`: there is no DELETE branch, so DELETE is
      refused with any method but GET, POST, PUT and OPTIONS. */
  function RouteOf(verb: string): (r: Route)
    ensures r == OptionsRoute <==> verb == "OPTIONS"
    ensures r == ListRoute <==> verb == "GET"
    ensures r == CreateRoute <==> verb == "POST"
    ensures r == UpdateRoute <==> verb == "PUT"
    ensures r == UnknownRoute <==> verb !in {"OPTIONS", "GET", "POST", "PUT"}
  {
    if verb == "OPTIONS" then OptionsRoute
    else if verb == "GET" then ListRoute
    else if verb == "POST" then CreateRoute
    else if verb == "PUT" then UpdateRoute
    else UnknownRoute
  }

  /** `handler(event, context)`; `body` is `None` when the request body is not
      valid JSON. */
  method Handle(db: Database, verb: string, params: Params, body: Option<RoomFields>, now: int)
    returns (reply: Reply)
    requires db.Valid()
    modifies db
    ensures db.Valid()
    ensures RouteOf(verb) == OptionsRoute ==> reply == Preflight && unchanged(db)
    ensures RouteOf(verb) == UnknownRoute ==> reply == NotAllowed && unchanged(db)
    ensures RouteOf(verb) == ListRoute ==> reply == ListRooms(db, params) && unchanged(db)
    ensures RouteOf(verb) in {CreateRoute, UpdateRoute} && body.None? ==> reply == InternalError && unchanged(db)
    ensures RouteOf(verb) == CreateRoute && body.Some? ==> CreateDone(db, body.value, now, reply)
    ensures RouteOf(verb) == UpdateRoute && body.Some? ==> UpdateDone(db, params, body.value, reply)
    ensures reply.statusCode in {200, 201, 400, 404, 405, 500}
  {
    match RouteOf(verb)
    case OptionsRoute => reply := Preflight;
    case UnknownRoute => reply := NotAllowed;
    case ListRoute => reply := ListRooms(db, params);
    case CreateRoute =>
      if body.None? {
        reply := InternalError;
      } else {
        reply := HandleCreate(db, body.value, now);
      }
    case UpdateRoute =>
      if body.None? {
        reply := InternalError;
      } else {
        reply := HandleUpdate(db, params, body.value);
      }
  }
}
